/** The loader of stats_load.py: the per-resource load functions and
    load_stats_data, the run that rebuilds the store from the statistics feed.

    A run is specified by `Plan`: the writes it performs, in order, and
    whether it got to the end. A step that raises (a payload the transform
    rejects) ends the run; the writes made before it stay in the store. */
module Load {
  import opened Values
  import opened Transform
  import opened Store

  /** The payloads the statistics feed answers with. */
  datatype Source = Source(
    teams: seq<Row>,                         // "teams" of GET /api/v1/teams
    sports: seq<Row>,                        // "sports" of GET /api/v1/sports
    people: string -> seq<Row>,              // "people" of GET <sport link>/players
    statGroups: seq<Row>,                    // GET /api/v1/statGroups
    splits: (string, int, int) -> seq<Row>)  // stats[0].splits of GET /api/v1/stats for (group, season, leagueId)

  /** The date parser pandas applies to date columns. */
  type DateParser = string -> Option<Date>

  /** The leagues whose season stats are requested, in request order. */
  const StatLeagues: seq<int> := [103, 104]

  // ---------------------------------------------------------------------
  // Outcomes of a run

  /** The writes a part of the run performs, and whether it finished. */
  datatype Outcome = Outcome(ops: seq<Op>, ok: bool)

  const Done: Outcome := Outcome([], true)
  const Failed: Outcome := Outcome([], false)

  /** One part after another: the second runs only if the first finished. */
  function Then(first: Outcome, next: Outcome): Outcome
  {
    if first.ok then Outcome(first.ops + next.ops, next.ok) else first
  }

  /** A loop running one step per element, in order, stopping at the first failure. */
  function Fold<X>(xs: seq<X>, step: X -> Outcome): Outcome
  {
    if xs == [] then Done else Then(Fold(xs[..|xs| - 1], step), step(xs[|xs| - 1]))
  }

  lemma FoldPrefix<X>(xs: seq<X>, step: X -> Outcome, i: nat)
    requires i < |xs|
    ensures Fold(xs[..i + 1], step) == Then(Fold(xs[..i], step), step(xs[i]))
  {
    assert xs[..i + 1][..i] == xs[..i];
  }

  /** The store after one more step of a loop that has not failed. */
  lemma FoldStepApply<X>(t: Tables, xs: seq<X>, step: X -> Outcome, i: nat)
    requires i < |xs| && Fold(xs[..i], step).ok
    ensures Fold(xs[..i + 1], step).ok == step(xs[i]).ok
    ensures ApplyAll(t, Fold(xs[..i + 1], step).ops) == ApplyAll(ApplyAll(t, Fold(xs[..i], step).ops), step(xs[i]).ops)
  {
    FoldPrefix(xs, step, i);
    ApplyAllConcat(t, Fold(xs[..i], step).ops, step(xs[i]).ops);
  }

  /** Once the loop has failed, the remaining elements change nothing. */
  lemma {:induction false} FoldStopsAtFailure<X>(xs: seq<X>, step: X -> Outcome, i: nat)
    requires i <= |xs| && !Fold(xs[..i], step).ok
    ensures Fold(xs, step) == Fold(xs[..i], step)
  {
    if i < |xs| {
      var init := xs[..|xs| - 1];
      assert init[..i] == xs[..i];
      FoldStopsAtFailure(init, step, i);
    } else {
      assert xs[..i] == xs;
    }
  }

  /** The loop finishes exactly when every step finishes. */
  lemma {:induction false} FoldOk<X>(xs: seq<X>, step: X -> Outcome)
    ensures Fold(xs, step).ok <==> forall i :: 0 <= i < |xs| ==> step(xs[i]).ok
  {
    if xs != [] {
      var init := xs[..|xs| - 1];
      FoldOk(init, step);
      assert forall i :: 0 <= i < |init| ==> init[i] == xs[i];
    }
  }

  /** Every write of a loop, finished or stopped by a failure, is a write of
      one of its steps. */
  lemma {:induction false} FoldOps<X>(xs: seq<X>, step: X -> Outcome, op: Op)
    requires op in Fold(xs, step).ops
    ensures exists i :: 0 <= i < |xs| && op in step(xs[i]).ops
  {
    var init := xs[..|xs| - 1];
    if op in Fold(init, step).ops {
      FoldOps(init, step, op);
      var i :| 0 <= i < |init| && op in step(init[i]).ops;
      assert init[i] == xs[i];
    } else {
      assert op in step(xs[|xs| - 1]).ops;
    }
  }

  /** A finished loop whose steps each write k times writes k times per element. */
  lemma {:induction false} FoldOpsCount<X>(xs: seq<X>, step: X -> Outcome, k: nat)
    requires Fold(xs, step).ok
    requires forall i :: 0 <= i < |xs| ==> |step(xs[i]).ops| == k
    ensures |Fold(xs, step).ops| == k * |xs|
  {
    if xs != [] {
      var init := xs[..|xs| - 1];
      assert forall i :: 0 <= i < |init| ==> init[i] == xs[i];
      FoldOpsCount(init, step, k);
    }
  }

  // ---------------------------------------------------------------------
  // The steps of a run

  function ReplaceStep(name: string, rows: Option<seq<Row>>): Outcome
  {
    match rows
    case None => Failed
    case Some(r) => Outcome([Op.Replace(name, r)], true)
  }

  function AppendStep(name: string, rows: Option<seq<Row>>): Outcome
  {
    match rows
    case None => Failed
    case Some(r) => Outcome([Op.Append(name, r)], true)
  }

  /** get_teams. */
  function TeamsStep(src: Source): Outcome
  {
    ReplaceStep("d_teams", TransformTeams(src.teams))
  }

  /** get_all_sports. */
  function SportsStep(src: Source): Outcome
  {
    ReplaceStep("d_leaguelevel", TransformSports(src.sports))
  }

  /** get_all_players for one raw sport record of the sports payload. */
  function PlayersStep(src: Source, parse: DateParser, sport: Row): Outcome
  {
    match SportLink(sport)
    case None => Failed
    case Some(link) => AppendStep("d_player", TransformPlayers(src.people(link), link, parse))
  }

  function PlayerSteps(src: Source, parse: DateParser): Row -> Outcome
  {
    sport => PlayersStep(src, parse, sport)
  }

  /** The table the season stats of a group are appended to. */
  function FactTable(group: string): string
  {
    "f_" + group
  }

  /** The two tables the season stats go to: f_hitting and f_pitching. */
  predicate IsStatsTable(name: string)
  {
    name == FactTable("hitting") || name == FactTable("pitching")
  }

  /** One request of get_player_season_stats: one group, season and league. */
  function LeagueStep(src: Source, group: string, season: int, league: int): Outcome
  {
    AppendStep(FactTable(group), TransformSplits(src.splits(group, season, league)))
  }

  function LeagueSteps(src: Source, group: string, season: int): int -> Outcome
  {
    league => LeagueStep(src, group, season, league)
  }

  /** get_player_season_stats: the loop over the two leagues. */
  function GroupStats(src: Source, group: string, season: int): Outcome
  {
    Fold(StatLeagues, LeagueSteps(src, group, season))
  }

  /** One stat group of one season: loaded only when it is hitting or pitching. */
  function GroupStep(src: Source, season: int, group: Value): Outcome
  {
    if IsLoadedGroup(group) then GroupStats(src, group.s, season) else Done
  }

  function GroupSteps(src: Source, season: int): Value -> Outcome
  {
    group => GroupStep(src, season, group)
  }

  /** One season: every stat group in the order the feed lists them. */
  function SeasonStep(src: Source, groups: seq<Value>, season: int): Outcome
  {
    Fold(groups, GroupSteps(src, season))
  }

  function SeasonSteps(src: Source, groups: seq<Value>): int -> Outcome
  {
    season => SeasonStep(src, groups, season)
  }

  /** The players of every sport, in the order of the sports payload. */
  function PlayersOutcome(src: Source, parse: DateParser): Outcome
  {
    Fold(src.sports, PlayerSteps(src, parse))
  }

  /** The ids the sports loop collects: the ids of each sport's player
      records, in the order of the sports payload. */
  function CollectedIds(src: Source, sports: seq<Row>): seq<Value>
  {
    if sports == [] then [] else CollectedIds(src, sports[..|sports| - 1]) + SportIds(src, sports[|sports| - 1])
  }

  /** The ids of the player records of one sport. */
  function SportIds(src: Source, sport: Row): seq<Value>
  {
    match SportLink(sport)
    case None => []
    case Some(link) => PlayerIds(src.people(link))
  }

  /** One more sport adds the ids of that sport's player records. */
  lemma CollectedIdsStep(src: Source, sports: seq<Row>, i: nat)
    requires i < |sports|
    ensures CollectedIds(src, sports[..i + 1]) == CollectedIds(src, sports[..i]) + SportIds(src, sports[i])
  {
    assert sports[..i + 1][..i] == sports[..i];
  }

  /** The season stats of every season of the window, ascending. */
  function StatsOutcome(src: Source, today: Date, numYears: int): Outcome
  {
    Fold(Seasons(AnchorYear(today), numYears), SeasonSteps(src, StatGroupNames(src.statGroups)))
  }

  /** load_stats_data after the drop: teams, then league levels, then the
      players of each league level, then the season stats. */
  function Plan(src: Source, parse: DateParser, today: Date, numYears: int): Outcome
  {
    Then(Then(Then(TeamsStep(src), SportsStep(src)), PlayersOutcome(src, parse)), StatsOutcome(src, today, numYears))
  }

  // ---------------------------------------------------------------------
  // What a run writes

  /** Each (season, group) request pair appends to f_<group> twice: the
      league 103 page, then the league 104 page. */
  lemma GroupStatsWrites(src: Source, group: string, season: int)
    requires GroupStats(src, group, season).ok
    ensures GroupStats(src, group, season).ops == [
      Op.Append(FactTable(group), TransformSplits(src.splits(group, season, 103)).value),
      Op.Append(FactTable(group), TransformSplits(src.splits(group, season, 104)).value)]
  {
    var steps := LeagueSteps(src, group, season);
    var first, second := LeagueStep(src, group, season, 103), LeagueStep(src, group, season, 104);
    assert StatLeagues[..1] == [103] && StatLeagues[..2] == StatLeagues;
    FoldPrefix(StatLeagues, steps, 0);
    assert Fold([103], steps) == Then(Done, first);
    FoldPrefix(StatLeagues, steps, 1);
    assert GroupStats(src, group, season) == Then(Then(Done, first), second);
  }

  /** The number of groups of the list that are loaded. */
  function LoadedCount(groups: seq<Value>): nat
  {
    if groups == [] then 0
    else LoadedCount(groups[..|groups| - 1]) + (if IsLoadedGroup(groups[|groups| - 1]) then 1 else 0)
  }

  /** A finished season writes twice per loaded group and nothing for the others. */
  lemma {:induction false} SeasonWrites(src: Source, groups: seq<Value>, season: int)
    requires SeasonStep(src, groups, season).ok
    ensures |SeasonStep(src, groups, season).ops| == 2 * LoadedCount(groups)
  {
    if groups != [] {
      var init := groups[..|groups| - 1];
      var last := groups[|groups| - 1];
      SeasonWrites(src, init, season);
      if IsLoadedGroup(last) {
        GroupStatsWrites(src, last.s, season);
      }
    }
  }

  /** A finished stats phase writes 2 x seasons x loaded groups batches: one
      per (season, loaded group, league). */
  lemma StatsWrites(src: Source, today: Date, numYears: int)
    requires StatsOutcome(src, today, numYears).ok
    ensures |StatsOutcome(src, today, numYears).ops| ==
      2 * LoadedCount(StatGroupNames(src.statGroups)) * (if numYears >= 0 then numYears + 1 else 0)
  {
    var groups := StatGroupNames(src.statGroups);
    var seasons := Seasons(AnchorYear(today), numYears);
    ghost var steps := SeasonSteps(src, groups);
    FoldOk(seasons, steps);
    forall i | 0 <= i < |seasons|
      ensures |steps(seasons[i]).ops| == 2 * LoadedCount(groups)
    {
      SeasonWrites(src, groups, seasons[i]);
    }
    FoldOpsCount(seasons, steps, 2 * LoadedCount(groups));
  }

  /** Every write of get_player_season_stats, finished or not, appends to f_<group>. */
  lemma GroupStatsTable(src: Source, group: string, season: int)
    ensures forall op :: op in GroupStats(src, group, season).ops ==> op.Append? && op.name == FactTable(group)
  {
    forall op | op in GroupStats(src, group, season).ops
      ensures op.Append? && op.name == FactTable(group)
    {
      FoldOps(StatLeagues, LeagueSteps(src, group, season), op);
    }
  }

  lemma GroupStepTables(src: Source, season: int, group: Value, op: Op)
    requires op in GroupStep(src, season, group).ops
    ensures op.Append? && IsStatsTable(op.name)
  {
    var g := group.s;
    GroupStatsTable(src, g, season);
    assert g == "hitting" || g == "pitching";
  }

  lemma SeasonTables(src: Source, groups: seq<Value>, season: int, op: Op)
    requires op in SeasonStep(src, groups, season).ops
    ensures op.Append? && IsStatsTable(op.name)
  {
    var steps := GroupSteps(src, season);
    FoldOps(groups, steps, op);
    var j :| 0 <= j < |groups| && op in steps(groups[j]).ops;
    GroupStepTables(src, season, groups[j], op);
  }

  /** Every write of the stats phase, finished or not, appends to f_hitting or f_pitching. */
  lemma StatsTables(src: Source, today: Date, numYears: int)
    ensures forall op :: op in StatsOutcome(src, today, numYears).ops ==>
      op.Append? && IsStatsTable(op.name)
  {
    var groups := StatGroupNames(src.statGroups);
    var seasons := Seasons(AnchorYear(today), numYears);
    var steps := SeasonSteps(src, groups);
    forall op | op in Fold(seasons, steps).ops
      ensures op.Append? && IsStatsTable(op.name)
    {
      FoldOps(seasons, steps, op);
      var i :| 0 <= i < |seasons| && op in steps(seasons[i]).ops;
      SeasonTables(src, groups, seasons[i], op);
    }
  }

  /** Every write of the player phase, finished or not, appends to d_player. */
  lemma PlayersTables(src: Source, parse: DateParser)
    ensures forall op :: op in PlayersOutcome(src, parse).ops ==> op.Append? && op.name == "d_player"
  {
    forall op | op in PlayersOutcome(src, parse).ops
      ensures op.Append? && op.name == "d_player"
    {
      FoldOps(src.sports, PlayerSteps(src, parse), op);
    }
  }

  /** A finished player phase appends to d_player once per sport. */
  lemma PlayersWrites(src: Source, parse: DateParser)
    requires PlayersOutcome(src, parse).ok
    ensures |PlayersOutcome(src, parse).ops| == |src.sports|
    ensures forall op :: op in PlayersOutcome(src, parse).ops ==> op.Append? && op.name == "d_player"
  {
    var steps := PlayerSteps(src, parse);
    FoldOk(src.sports, steps);
    FoldOpsCount(src.sports, steps, 1);
    PlayersTables(src, parse);
  }

  /** Four parts one after another, the first two writing once each: what
      follows those two writes is the writes of the last two parts. */
  lemma ThenFourTail(a: Outcome, b: Outcome, c: Outcome, d: Outcome)
    requires Then(Then(Then(a, b), c), d).ok
    requires a.ok ==> |a.ops| == 1
    requires b.ok ==> |b.ops| == 1
    ensures |Then(Then(Then(a, b), c), d).ops| >= 2
    ensures Then(Then(Then(a, b), c), d).ops[2..] == c.ops + d.ops
  {
    assert (a.ops + b.ops + c.ops + d.ops)[2..] == c.ops + d.ops;
  }

  /** Four parts one after another that finish: each part finished, and the
      writes are theirs in order. */
  lemma ThenFourOk(a: Outcome, b: Outcome, c: Outcome, d: Outcome)
    requires Then(Then(Then(a, b), c), d).ok
    ensures a.ok && b.ok && c.ok && d.ok
    ensures Then(Then(Then(a, b), c), d).ops == a.ops + b.ops + c.ops + d.ops
  {
  }

  /** A finished run is the write of each dimension table followed by the
      player and stats phases. */
  lemma PlanSplit(src: Source, parse: DateParser, today: Date, numYears: int)
    requires Plan(src, parse, today, numYears).ok
    ensures var ops := Plan(src, parse, today, numYears).ops;
      && |ops| >= 2
      && ops[0] == Op.Replace("d_teams", TransformTeams(src.teams).value)
      && ops[1] == Op.Replace("d_leaguelevel", TransformSports(src.sports).value)
      && ops[2..] == PlayersOutcome(src, parse).ops + StatsOutcome(src, today, numYears).ops
  {
    ThenFourOk(TeamsStep(src), SportsStep(src), PlayersOutcome(src, parse), StatsOutcome(src, today, numYears));
    ThenFourTail(TeamsStep(src), SportsStep(src), PlayersOutcome(src, parse), StatsOutcome(src, today, numYears));
  }

  /** A finished run replaces d_teams, then replaces d_leaguelevel, then
      appends to d_player once per league level, then appends season stats
      to f_hitting / f_pitching only. */
  lemma PlanWrites(src: Source, parse: DateParser, today: Date, numYears: int)
    requires Plan(src, parse, today, numYears).ok
    ensures var ops := Plan(src, parse, today, numYears).ops;
      && |ops| == 2 + |src.sports| + |StatsOutcome(src, today, numYears).ops|
      && ops[0] == Op.Replace("d_teams", TransformTeams(src.teams).value)
      && ops[1] == Op.Replace("d_leaguelevel", TransformSports(src.sports).value)
      && (forall op :: op in ops[2..2 + |src.sports|] ==> op.Append? && op.name == "d_player")
      && (forall op :: op in ops[2 + |src.sports|..] ==> op.Append? && IsStatsTable(op.name))
  {
    var t := TeamsStep(src);
    var s := SportsStep(src);
    var p := PlayersOutcome(src, parse);
    var st := StatsOutcome(src, today, numYears);
    var ops := Plan(src, parse, today, numYears).ops;
    ThenFourOk(t, s, p, st);
    PlayersWrites(src, parse);
    StatsTables(src, today, numYears);
    assert ops[2..2 + |src.sports|] == p.ops;
    assert ops[2 + |src.sports|..] == st.ops;
  }

  /** The tables appended to are not the two dimension tables, which differ from each other. */
  lemma LoadedNamesDiffer(name: string)
    requires name == "d_player" || IsStatsTable(name)
    ensures name != "d_teams" && name != "d_leaguelevel"
    ensures "d_teams" != "d_leaguelevel"
  {
    assert "d_teams"[2] != "d_leaguelevel"[2];
    if name == "d_player" {
      assert name[2] == 'p' && "d_teams"[2] == 't' && "d_leaguelevel"[2] == 'l';
    } else {
      assert name[0] == 'f' && "d_teams"[0] == 'd' && "d_leaguelevel"[0] == 'd';
    }
  }

  /** After the two dimension tables, a finished run writes neither of them again. */
  lemma PlanTailNames(src: Source, parse: DateParser, today: Date, numYears: int)
    requires Plan(src, parse, today, numYears).ok
    ensures var rest := Plan(src, parse, today, numYears).ops[2..];
      forall k :: 0 <= k < |rest| ==> rest[k].name != "d_teams" && rest[k].name != "d_leaguelevel"
  {
    var p := PlayersOutcome(src, parse);
    var st := StatsOutcome(src, today, numYears);
    PlanSplit(src, parse, today, numYears);
    var rest := Plan(src, parse, today, numYears).ops[2..];
    PlayersWrites(src, parse);
    StatsTables(src, today, numYears);
    forall k | 0 <= k < |rest|
      ensures rest[k].name != "d_teams" && rest[k].name != "d_leaguelevel"
    {
      if k < |p.ops| {
        assert rest[k] in p.ops;
      } else {
        assert rest[k] in st.ops;
      }
      LoadedNamesDiffer(rest[k].name);
    }
  }

  /** After a finished run from an empty store, d_teams holds the teams'
      rows followed by the unknown team, and d_leaguelevel one row per sport. */
  lemma PlanDimensions(src: Source, parse: DateParser, today: Date, numYears: int)
    requires Plan(src, parse, today, numYears).ok
    ensures var t := ApplyAll(map[], Plan(src, parse, today, numYears).ops);
      && Rows(t, "d_teams") == TransformTeams(src.teams).value
      && |Rows(t, "d_teams")| == |src.teams| + 1
      && Rows(t, "d_teams")[|src.teams|] == UnknownTeam
      && Rows(t, "d_leaguelevel") == TransformSports(src.sports).value
      && |Rows(t, "d_leaguelevel")| == |src.sports|
  {
    var ops := Plan(src, parse, today, numYears).ops;
    PlanWrites(src, parse, today, numYears);
    PlanTailNames(src, parse, today, numYears);
    LoadedNamesDiffer("d_player");
    ReplacedFirst(map[], ops);
  }

  lemma StatsTableNotPlayers(name: string)
    requires IsStatsTable(name)
    ensures name != "d_player"
  {
    assert name[0] == 'f' && "d_player"[0] == 'd';
  }

  /** The rows one sport's step appends to d_player carry that sport's player ids. */
  lemma SportAppended(src: Source, parse: DateParser, sport: Row)
    requires PlayersStep(src, parse, sport).ok
    ensures PlayerIds(AppendedRows(PlayersStep(src, parse, sport).ops, "d_player")) == SportIds(src, sport)
  {
    var link := SportLink(sport).value;
    PlayerIdsOfPayload(src.people(link), link, parse);
    AppendStepIds(TransformPlayers(src.people(link), link, parse), src.people(link));
  }

  /** A successful append step to d_player appends rows with the given ids. */
  lemma AppendStepIds(rows: Option<seq<Row>>, records: seq<Row>)
    requires rows.Some? && PlayerIds(rows.value) == PlayerIds(records)
    ensures PlayerIds(AppendedRows(AppendStep("d_player", rows).ops, "d_player")) == PlayerIds(records)
  {
    var ops := AppendStep("d_player", rows).ops;
    assert ops == [Op.Append("d_player", rows.value)];
    assert ops[..0] == [];
  }

  /** The rows a finished prefix of the sports loop appends to d_player carry,
      in order, the ids the loop collects. */
  lemma {:induction false} PlayersAppended(src: Source, parse: DateParser, sports: seq<Row>, i: nat)
    requires i <= |sports| && Fold(sports[..i], PlayerSteps(src, parse)).ok
    ensures PlayerIds(AppendedRows(Fold(sports[..i], PlayerSteps(src, parse)).ops, "d_player")) == CollectedIds(src, sports[..i])
  {
    var steps := PlayerSteps(src, parse);
    if i == 0 {
      assert sports[..0] == [];
    } else {
      FoldPrefix(sports, steps, i - 1);
      var before := Fold(sports[..i - 1], steps);
      var step := PlayersStep(src, parse, sports[i - 1]);
      PlayersAppended(src, parse, sports, i - 1);
      AppendedRowsConcat(before.ops, step.ops, "d_player");
      SportAppended(src, parse, sports[i - 1]);
      PlayerIdsConcat(AppendedRows(before.ops, "d_player"), AppendedRows(step.ops, "d_player"));
      CollectedIdsStep(src, sports, i - 1);
    }
  }

  /** A run of writes that replaces d_teams and d_leaguelevel, then appends
      player batches to d_player, then appends to the stats tables, leaves in
      d_player exactly the player batches. */
  lemma PlayerRowsOf(ops: seq<Op>, players: seq<Op>, stats: seq<Op>)
    requires |ops| >= 2 && ops[0].name == "d_teams" && ops[1].name == "d_leaguelevel"
    requires ops[2..] == players + stats
    requires forall op :: op in players ==> op.Append? && op.name == "d_player"
    requires forall op :: op in stats ==> op.Append? && IsStatsTable(op.name)
    ensures Rows(ApplyAll(map[], ops), "d_player") == AppendedRows(players, "d_player")
  {
    LoadedNamesDiffer("d_player");
    forall k | 0 <= k < |stats|
      ensures stats[k].name != "d_player"
    {
      assert stats[k] in stats;
      StatsTableNotPlayers(stats[k].name);
    }
    forall k | 0 <= k < |ops| && ops[k].name == "d_player"
      ensures ops[k].Append?
    {
      if k >= 2 {
        assert ops[k] == (players + stats)[k - 2];
        if k - 2 < |players| {
          assert ops[k] in players;
        } else {
          assert ops[k] in stats;
        }
      }
    }
    ApplyAllAppends(map[], ops, "d_player");
    AppendedRowsWithin(ops, 2, players, stats, "d_player");
  }

  /** After a finished run from an empty store, d_player holds the player
      records of every sport, sport after sport: its id column is exactly the
      ids the sports loop collects. */
  lemma PlanPlayers(src: Source, parse: DateParser, today: Date, numYears: int)
    requires Plan(src, parse, today, numYears).ok
    ensures PlayerIds(Rows(ApplyAll(map[], Plan(src, parse, today, numYears).ops), "d_player")) == CollectedIds(src, src.sports)
  {
    var ops := Plan(src, parse, today, numYears).ops;
    var p := PlayersOutcome(src, parse);
    var st := StatsOutcome(src, today, numYears);
    PlanParts(src, parse, today, numYears);
    PlayersWrites(src, parse);
    StatsTables(src, today, numYears);
    PlayerRowsOf(ops, p.ops, st.ops);
    PlayersPhaseIds(src, parse);
  }

  /** A finished run: d_teams and d_leaguelevel written first, then the two loops. */
  lemma PlanParts(src: Source, parse: DateParser, today: Date, numYears: int)
    requires Plan(src, parse, today, numYears).ok
    ensures PlayersOutcome(src, parse).ok && StatsOutcome(src, today, numYears).ok
    ensures var ops := Plan(src, parse, today, numYears).ops;
      && |ops| >= 2 && ops[0].name == "d_teams" && ops[1].name == "d_leaguelevel"
      && ops[2..] == PlayersOutcome(src, parse).ops + StatsOutcome(src, today, numYears).ops
  {
    PlanSplit(src, parse, today, numYears);
    PlanWrites(src, parse, today, numYears);
  }

  /** The rows a finished players phase appends carry every sport's player ids, in order. */
  lemma PlayersPhaseIds(src: Source, parse: DateParser)
    requires PlayersOutcome(src, parse).ok
    ensures PlayerIds(AppendedRows(PlayersOutcome(src, parse).ops, "d_player")) == CollectedIds(src, src.sports)
  {
    assert src.sports[..|src.sports|] == src.sports;
    PlayersAppended(src, parse, src.sports, |src.sports|);
  }

  // ---------------------------------------------------------------------
  // What a run that stops part-way leaves

  /** Four parts one after another, the first two finishing with one write
      each: the later parts' writes follow, the fourth's only when the third
      finished. */
  lemma ThenFourPartial(a: Outcome, b: Outcome, c: Outcome, d: Outcome)
    requires a.ok && b.ok && |a.ops| == 1 && |b.ops| == 1
    ensures Then(Then(Then(a, b), c), d).ops == a.ops + b.ops + c.ops + (if c.ok then d.ops else [])
  {
    if !c.ok {
      assert a.ops + b.ops + c.ops + [] == a.ops + b.ops + c.ops;
    }
  }

  /** Writes that replace d_teams and d_leaguelevel, then append player
      batches, then append to the stats tables: the dimension tables hold what
      replaced them, every stats write is among the stats batches, and
      d_player holds exactly the player batches. */
  lemma RunLeaves(ops: seq<Op>, teams: seq<Row>, levels: seq<Row>, players: seq<Op>, stats: seq<Op>)
    requires ops == [Op.Replace("d_teams", teams), Op.Replace("d_leaguelevel", levels)] + players + stats
    requires forall op :: op in players ==> op.Append? && op.name == "d_player"
    requires forall op :: op in stats ==> op.Append? && IsStatsTable(op.name)
    ensures Rows(ApplyAll(map[], ops), "d_teams") == teams
    ensures Rows(ApplyAll(map[], ops), "d_leaguelevel") == levels
    ensures Rows(ApplyAll(map[], ops), "d_player") == AppendedRows(players, "d_player")
    ensures forall op :: op in ops && IsStatsTable(op.name) ==> op in stats
  {
    assert ops[2..] == players + stats;
    forall k | 0 <= k < |ops[2..]|
      ensures ops[2..][k].name != "d_teams" && ops[2..][k].name != "d_leaguelevel"
    {
      var op := ops[2..][k];
      if k < |players| {
        assert op in players;
      } else {
        assert op in stats;
      }
      LoadedNamesDiffer(op.name);
    }
    ReplacedFirst(map[], ops);
    PlayerRowsOf(ops, players, stats);
    forall k | 0 <= k < |ops|
      ensures IsStatsTable(ops[k].name) ==> ops[k] in stats
    {
      NotStatsTables();
      if k >= 2 + |players| {
        assert ops[k] == stats[k - 2 - |players|];
      } else if k >= 2 {
        assert ops[k] == players[k - 2];
        assert ops[k] in players;
      }
    }
  }

  /** The dimension tables and d_player are not stats tables. */
  lemma NotStatsTables()
    ensures !IsStatsTable("d_teams") && !IsStatsTable("d_leaguelevel") && !IsStatsTable("d_player")
  {
    forall name | IsStatsTable(name)
      ensures name != "d_teams" && name != "d_leaguelevel"
      ensures name != "d_player"
    {
      LoadedNamesDiffer(name);
      StatsTableNotPlayers(name);
    }
  }

  /** A run that gets past the two dimension tables, whether or not it
      finishes: d_teams holds the team rows and the unknown team, and
      d_leaguelevel the league levels, as after a finished run. Season stats
      are written only once every sport's players are loaded, and then
      d_player holds every sport's players. */
  lemma PlanPartial(src: Source, parse: DateParser, today: Date, numYears: int)
    requires TeamsStep(src).ok && SportsStep(src).ok
    ensures var t := ApplyAll(map[], Plan(src, parse, today, numYears).ops);
      && Rows(t, "d_teams") == TransformTeams(src.teams).value
      && Rows(t, "d_leaguelevel") == TransformSports(src.sports).value
    ensures forall op :: op in Plan(src, parse, today, numYears).ops && IsStatsTable(op.name) ==>
      PlayersOutcome(src, parse).ok
    ensures PlayersOutcome(src, parse).ok ==>
      PlayerIds(Rows(ApplyAll(map[], Plan(src, parse, today, numYears).ops), "d_player")) == CollectedIds(src, src.sports)
  {
    var p := PlayersOutcome(src, parse);
    PlayersTables(src, parse);
    StatsTables(src, today, numYears);
    RunPartial(TeamsStep(src), SportsStep(src), p, StatsOutcome(src, today, numYears),
      TransformTeams(src.teams).value, TransformSports(src.sports).value);
    if p.ok {
      PlayersPhaseIds(src, parse);
    }
  }

  /** RunLeaves for a run made of the four parts of Plan, stopped anywhere
      after the dimension tables. */
  lemma RunPartial(a: Outcome, b: Outcome, c: Outcome, d: Outcome, teams: seq<Row>, levels: seq<Row>)
    requires a == Outcome([Op.Replace("d_teams", teams)], true)
    requires b == Outcome([Op.Replace("d_leaguelevel", levels)], true)
    requires forall op :: op in c.ops ==> op.Append? && op.name == "d_player"
    requires forall op :: op in d.ops ==> op.Append? && IsStatsTable(op.name)
    ensures var t := ApplyAll(map[], Then(Then(Then(a, b), c), d).ops);
      && Rows(t, "d_teams") == teams && Rows(t, "d_leaguelevel") == levels
      && Rows(t, "d_player") == AppendedRows(c.ops, "d_player")
    ensures forall op :: op in Then(Then(Then(a, b), c), d).ops && IsStatsTable(op.name) ==> c.ok
  {
    var stats := if c.ok then d.ops else [];
    ThenFourPartial(a, b, c, d);
    RunLeaves(Then(Then(Then(a, b), c), d).ops, teams, levels, c.ops, stats);
  }

  // ---------------------------------------------------------------------
  // The loader's methods

  /** get_teams: replaces d_teams with the transformed teams payload. */
  method GetTeams(db: Db, src: Source) returns (ok: bool)
    modifies db
    ensures db.tables == ApplyAll(old(db.tables), TeamsStep(src).ops)
    ensures ok == TeamsStep(src).ok
  {
    var rows := TransformTeams(src.teams);
    if rows.None? {
      return false;
    }
    db.Replace("d_teams", rows.value);
    ok := true;
    assert [Op.Replace("d_teams", rows.value)][..0] == [];
  }

  /** get_all_sports: replaces d_leaguelevel and returns the raw sport records. */
  method GetAllSports(db: Db, src: Source) returns (ok: bool, sports: seq<Row>)
    modifies db
    ensures db.tables == ApplyAll(old(db.tables), SportsStep(src).ops)
    ensures ok == SportsStep(src).ok
    ensures sports == src.sports
  {
    sports := src.sports;
    var rows := TransformSports(src.sports);
    if rows.None? {
      return false, sports;
    }
    db.Replace("d_leaguelevel", rows.value);
    ok := true;
    assert [Op.Replace("d_leaguelevel", rows.value)][..0] == [];
  }

  /** The null-fill loop of get_all_players: every listed column that no
      record holds is added, null, to every record; cells already there are
      untouched. */
  method FillMissing(records: seq<Row>, cols: seq<string>) returns (filled: seq<Row>)
    ensures |filled| == |records|
    ensures forall i :: 0 <= i < |records| ==> SameCells(filled[i], records[i])
    ensures forall i, c :: 0 <= i < |records| ==>
      (c in filled[i] <==> c in records[i] || (c in cols && !HasColumn(records, c)))
  {
    filled := records;
    for j := 0 to |cols|
      invariant |filled| == |records|
      invariant forall i :: 0 <= i < |records| ==> SameCells(filled[i], records[i])
      invariant forall i, c :: 0 <= i < |records| ==>
        (c in filled[i] <==> c in records[i] || (c in cols[..j] && !HasColumn(records, c)))
    {
      var c := cols[j];
      if !HasColumn(filled, c) {
        filled := seq(|filled|, i requires 0 <= i < |filled| => filled[i][c := Null]);
        assert !HasColumn(records, c);
      } else {
        assert c in cols[..j] || HasColumn(records, c);
      }
      assert cols[..j + 1] == cols[..j] + [c];
    }
    assert cols[..|cols|] == cols;
  }

  /** Two records that hold the same cells, absent columns reading as null. */
  ghost predicate SameCells(r: Row, s: Row)
  {
    forall c :: Get(r, c) == Get(s, c)
  }

  lemma PlayerRowSameCells(a: Row, b: Row, leagueId: string, parse: DateParser)
    requires SameCells(a, b)
    ensures PlayerRow(a, leagueId, parse) == PlayerRow(b, leagueId, parse)
  {
    assert PlayerRowOk(a, parse) == PlayerRowOk(b, parse);
    assert PlayerCells(a, leagueId, parse) == PlayerCells(b, leagueId, parse);
  }

  /** The player transform reads cells only, so null-filling changes nothing it produces. */
  lemma TransformPlayersSameCells(a: seq<Row>, b: seq<Row>, link: string, parse: DateParser)
    requires |a| == |b|
    requires forall i :: 0 <= i < |a| ==> SameCells(a[i], b[i])
    ensures TransformPlayers(a, link, parse) == TransformPlayers(b, link, parse)
  {
    var seg := LastSegment(link);
    var row := r => PlayerRow(r, seg, parse);
    forall i | 0 <= i < |a|
      ensures row(a[i]) == row(b[i])
    {
      PlayerRowSameCells(a[i], b[i], seg, parse);
    }
    MapOptAgree(a, b, row);
  }

  /** get_all_players: appends the players of one sport to d_player and
      returns their ids in payload order. */
  method GetAllPlayers(db: Db, src: Source, parse: DateParser, link: string) returns (ok: bool, ids: seq<Value>)
    modifies db
    ensures db.tables == ApplyAll(old(db.tables), AppendStep("d_player", TransformPlayers(src.people(link), link, parse)).ops)
    ensures ok == TransformPlayers(src.people(link), link, parse).Some?
    ensures ok ==> ids == PlayerIds(src.people(link))
  {
    var records := src.people(link);
    var filled := FillMissing(records, PlayerColumns);
    TransformPlayersSameCells(filled, records, link, parse);
    var rows := TransformPlayers(filled, link, parse);
    if rows.None? {
      return false, [];
    }
    db.Append("d_player", rows.value);
    PlayerIdsOfPayload(records, link, parse);
    ok, ids := true, PlayerIds(rows.value);
    assert [Op.Append("d_player", rows.value)][..0] == [];
  }

  /** get_player_season_stats: appends the league 103 page, then the league
      104 page, of one group and season to f_<group>. */
  method GetPlayerSeasonStats(db: Db, src: Source, group: string, season: int) returns (ok: bool)
    modifies db
    ensures db.tables == ApplyAll(old(db.tables), GroupStats(src, group, season).ops)
    ensures ok == GroupStats(src, group, season).ok
  {
    ghost var steps := LeagueSteps(src, group, season);
    ok := true;
    var i := 0;
    while i < |StatLeagues| && ok
      invariant 0 <= i <= |StatLeagues|
      invariant db.tables == ApplyAll(old(db.tables), Fold(StatLeagues[..i], steps).ops)
      invariant ok == Fold(StatLeagues[..i], steps).ok
    {
      FoldStepApply(old(db.tables), StatLeagues, steps, i);
      var rows := TransformSplits(src.splits(group, season, StatLeagues[i]));
      if rows.None? {
        ok := false;
      } else {
        ApplyAllOne(db.tables, Op.Append(FactTable(group), rows.value));
        db.Append(FactTable(group), rows.value);
      }
      i := i + 1;
    }
    if !ok {
      FoldStopsAtFailure(StatLeagues, steps, i);
    } else {
      assert StatLeagues[..i] == StatLeagues;
    }
  }

  /** One iteration of the sports loop: get_all_players on the sport's link. */
  method LoadSport(db: Db, src: Source, parse: DateParser, sport: Row) returns (ok: bool, ids: seq<Value>)
    modifies db
    ensures db.tables == ApplyAll(old(db.tables), PlayersStep(src, parse, sport).ops)
    ensures ok == PlayersStep(src, parse, sport).ok
    ensures ok ==> ids == SportIds(src, sport)
  {
    var link := SportLink(sport);
    if link.None? {
      return false, [];
    }
    ok, ids := GetAllPlayers(db, src, parse, link.value);
  }

  /** The sports loop of load_stats_data: the players of each sport in turn;
      a sport record without a text link ends the run. */
  method LoadPlayers(db: Db, src: Source, parse: DateParser, sports: seq<Row>) returns (ok: bool, playerIds: seq<Value>)
    requires sports == src.sports
    modifies db
    ensures db.tables == ApplyAll(old(db.tables), PlayersOutcome(src, parse).ops)
    ensures ok == PlayersOutcome(src, parse).ok
    ensures ok ==> playerIds == CollectedIds(src, src.sports)
  {
    ghost var steps := PlayerSteps(src, parse);
    ok := true;
    playerIds := [];
    var i := 0;
    while i < |sports| && ok
      invariant 0 <= i <= |sports|
      invariant db.tables == ApplyAll(old(db.tables), Fold(sports[..i], steps).ops)
      invariant ok == Fold(sports[..i], steps).ok
      invariant ok ==> playerIds == CollectedIds(src, sports[..i])
    {
      FoldStepApply(old(db.tables), sports, steps, i);
      CollectedIdsStep(src, sports, i);
      var ids;
      ok, ids := LoadSport(db, src, parse, sports[i]);
      playerIds := playerIds + ids;
      i := i + 1;
    }
    if !ok {
      FoldStopsAtFailure(sports, steps, i);
    } else {
      assert sports[..i] == sports;
    }
  }

  /** The stat-group loop of load_stats_data for one season. */
  method LoadSeason(db: Db, src: Source, groups: seq<Value>, season: int) returns (ok: bool)
    modifies db
    ensures db.tables == ApplyAll(old(db.tables), SeasonStep(src, groups, season).ops)
    ensures ok == SeasonStep(src, groups, season).ok
  {
    ghost var steps := GroupSteps(src, season);
    ok := true;
    var i := 0;
    while i < |groups| && ok
      invariant 0 <= i <= |groups|
      invariant db.tables == ApplyAll(old(db.tables), Fold(groups[..i], steps).ops)
      invariant ok == Fold(groups[..i], steps).ok
    {
      FoldStepApply(old(db.tables), groups, steps, i);
      var sg := groups[i];
      if sg == Str("hitting") || sg == Str("pitching") {
        ok := GetPlayerSeasonStats(db, src, sg.s, season);
      }
      i := i + 1;
    }
    if !ok {
      FoldStopsAtFailure(groups, steps, i);
    } else {
      assert groups[..i] == groups;
    }
  }

  /** The season loop of load_stats_data. */
  method LoadStats(db: Db, src: Source, groups: seq<Value>, seasons: seq<int>) returns (ok: bool)
    modifies db
    ensures db.tables == ApplyAll(old(db.tables), Fold(seasons, SeasonSteps(src, groups)).ops)
    ensures ok == Fold(seasons, SeasonSteps(src, groups)).ok
  {
    ghost var steps := SeasonSteps(src, groups);
    ok := true;
    var i := 0;
    while i < |seasons| && ok
      invariant 0 <= i <= |seasons|
      invariant db.tables == ApplyAll(old(db.tables), Fold(seasons[..i], steps).ops)
      invariant ok == Fold(seasons[..i], steps).ok
    {
      FoldStepApply(old(db.tables), seasons, steps, i);
      ok := LoadSeason(db, src, groups, seasons[i]);
      i := i + 1;
    }
    if !ok {
      FoldStopsAtFailure(seasons, steps, i);
    } else {
      assert seasons[..i] == seasons;
    }
  }

  /** load_stats_data: drops every table, then performs the writes of Plan. */
  method LoadStatsData(db: Db, src: Source, parse: DateParser, today: Date, numYears: int) returns (ok: bool)
    modifies db
    ensures db.tables == ApplyAll(map[], Plan(src, parse, today, numYears).ops)
    ensures ok == Plan(src, parse, today, numYears).ok
  {
    var year := AnchorYear(today);
    var _ := ClearStore(db);

    ghost var t := TeamsStep(src);
    ok := GetTeams(db, src);
    if !ok {
      return;
    }
    ghost var s := SportsStep(src);
    var sports;
    ok, sports := GetAllSports(db, src);
    ApplyAllConcat(map[], t.ops, s.ops);
    if !ok {
      return;
    }
    ghost var p := PlayersOutcome(src, parse);
    var playerIds;
    ok, playerIds := LoadPlayers(db, src, parse, sports);
    ApplyAllConcat(map[], t.ops + s.ops, p.ops);
    if !ok {
      return;
    }
    var groups := StatGroupNames(src.statGroups);
    ghost var st := StatsOutcome(src, today, numYears);
    ok := LoadStats(db, src, groups, Seasons(year, numYears));
    ApplyAllConcat(map[], t.ops + s.ops + p.ops, st.ops);
  }
}
