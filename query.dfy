/** The read side of baseball_card.py: the SQL behind the players, teams,
    level and player pages, evaluated over the tables the loader writes.
    A query that names a table the store does not hold fails (None). */
module Query {
  import opened Values
  import opened Store
  import opened ResultSets

  /** A result-set row: the selected columns in select-list order. */
  type Record = seq<Value>

  /** A row of a three-table join: ((player, league level), team). */
  type Triple = ((Row, Row), Row)

  /** `l.abbreviation = '<level>' or 'all' = '<level>'`. */
  predicate LevelOk(level: string, abbreviation: Value)
    ensures level == "all" ==> LevelOk(level, abbreviation)
    ensures level != "all" && abbreviation.Str? ==> (LevelOk(level, abbreviation) <==> abbreviation.s == level)
    ensures abbreviation.Null? ==> (LevelOk(level, abbreviation) <==> level == "all")
  {
    SqlEq(abbreviation, Str(level)) || level == "all"
  }

  /** `t.id = <team> or <team> = 0`. */
  predicate TeamOk(team: nat, id: Value)
    ensures team == 0 ==> TeamOk(team, id)
    ensures team != 0 && id.Int? ==> (TeamOk(team, id) <==> id.i == team)
    ensures id.Null? ==> (TeamOk(team, id) <==> team == 0)
  {
    SqlEq(id, Int(team)) || team == 0
  }

  /** The rows of a three-table join before its conditions. */
  function Cross3(ps: seq<Row>, ls: seq<Row>, ts: seq<Row>): (r: seq<Triple>)
    ensures forall x: Triple :: x in r <==> x.0.0 in ps && x.0.1 in ls && x.1 in ts
  {
    Pairs(Pairs(ps, ls), ts)
  }

  // ---------------------------------------------------------------------
  // /<level>/<int:team>/players

  /** The join and WHERE conditions of the players listing. */
  predicate PlayerJoined(x: Triple, level: string, team: nat)
  {
    var p, l, t := x.0.0, x.0.1, x.1;
    && SqlEq(Get(l, "id"), Get(p, "league_id"))
    && SqlEq(Get(t, "id"), Get(p, "currentTeam"))
    && LevelOk(level, Get(l, "abbreviation"))
    && TeamOk(team, Get(t, "id"))
  }

  /** p.fullName, p.id, l.abbreviation, p.lastName, t.id, t.name. */
  function PlayerListing(x: Triple): Record
  {
    var p, l, t := x.0.0, x.0.1, x.1;
    [Get(p, "fullName"), Get(p, "id"), Get(l, "abbreviation"), Get(p, "lastName"), Get(t, "id"), Get(t, "name")]
  }

  /** ORDER BY p.lastName ASC, firstName ASC. */
  function PlayerOrder(x: Triple): seq<Value>
  {
    [Get(x.0.0, "lastName"), Get(x.0.0, "firstName")]
  }

  function ByName(): (Triple, Triple) -> bool
  {
    (a: Triple, b: Triple) => LexLe(PlayerOrder(a), PlayerOrder(b))
  }

  lemma ByNameOrder()
    ensures TotalPreorder(ByName())
  {
    forall a: Triple, b: Triple
      ensures ByName()(a, b) || ByName()(b, a)
    {
      LexLeTotal(PlayerOrder(a), PlayerOrder(b));
    }
    forall a: Triple, b: Triple, c: Triple | ByName()(a, b) && ByName()(b, c)
      ensures ByName()(a, c)
    {
      LexLeTrans(PlayerOrder(a), PlayerOrder(b), PlayerOrder(c));
    }
  }

  /** The joined rows of the players listing, in ORDER BY order. */
  function PlayersSorted(ps: seq<Row>, ls: seq<Row>, ts: seq<Row>, level: string, team: nat): (r: seq<Triple>)
    ensures SortedBy(r, ByName())
    ensures forall x :: x in r <==> x.0.0 in ps && x.0.1 in ls && x.1 in ts && PlayerJoined(x, level, team)
  {
    var joined := Filter(Cross3(ps, ls, ts), x => PlayerJoined(x, level, team));
    ByNameOrder();
    SortByMembers(joined, ByName());
    SortBy(joined, ByName())
  }

  /** The players listing over d_player (ps), d_leaguelevel (ls) and d_teams (ts). */
  function PlayerRecords(ps: seq<Row>, ls: seq<Row>, ts: seq<Row>, level: string, team: nat): (r: seq<Record>)
    ensures NoDuplicates(r)
  {
    Dedup(Select(PlayersSorted(ps, ls, ts, level, team), PlayerListing))
  }

  const PlayerTables: set<string> := {"d_player", "d_leaguelevel", "d_teams"}

  /** The players page: every player with a matching league level and a
      matching current team, each distinct select-list row once, by name. */
  function Players(db: Tables, level: string, team: nat): (r: Option<seq<Record>>)
    ensures r.Some? <==> PlayerTables <= db.Keys
    ensures r.Some? ==> r.value == PlayerRecords(db["d_player"], db["d_leaguelevel"], db["d_teams"], level, team)
    ensures r.Some? ==> NoDuplicates(r.value)
  {
    if !(PlayerTables <= db.Keys) then None
    else Some(PlayerRecords(db["d_player"], db["d_leaguelevel"], db["d_teams"], level, team))
  }

  /** A row is listed exactly when a player joins a league level and a
      current team that pass the level and team filters (inner joins: a
      player without a matching level or team is not listed). */
  lemma PlayersListed(ps: seq<Row>, ls: seq<Row>, ts: seq<Row>, level: string, team: nat, rec: Record)
    ensures rec in PlayerRecords(ps, ls, ts, level, team) <==>
      exists x: Triple :: x.0.0 in ps && x.0.1 in ls && x.1 in ts && PlayerJoined(x, level, team) && rec == PlayerListing(x)
  {
    SelectMembers(PlayersSorted(ps, ls, ts, level, team), PlayerListing, rec);
  }

  lemma ListingFilters(x: Triple, level: string, team: nat)
    requires PlayerJoined(x, level, team)
    ensures |PlayerListing(x)| == 6
    ensures level != "all" ==> SqlEq(PlayerListing(x)[2], Str(level))
    ensures team != 0 ==> SqlEq(PlayerListing(x)[4], Int(team))
  {
  }

  /** Every listed row is of the requested league level (unless 'all') and
      of the requested team (unless 0). */
  lemma PlayersFiltered(ps: seq<Row>, ls: seq<Row>, ts: seq<Row>, level: string, team: nat, rec: Record)
    requires rec in PlayerRecords(ps, ls, ts, level, team)
    ensures |rec| == 6
    ensures level != "all" ==> SqlEq(rec[2], Str(level))
    ensures team != 0 ==> SqlEq(rec[4], Int(team))
  {
    PlayersListed(ps, ls, ts, level, team, rec);
    var x: Triple :| x.0.0 in ps && x.0.1 in ls && x.1 in ts && PlayerJoined(x, level, team) && rec == PlayerListing(x);
    ListingFilters(x, level, team);
  }

  /** Filtering only narrows: whatever a level/team page lists, the
      all-levels, all-teams page lists too. */
  lemma PlayersNarrow(ps: seq<Row>, ls: seq<Row>, ts: seq<Row>, level: string, team: nat, rec: Record)
    requires rec in PlayerRecords(ps, ls, ts, level, team)
    ensures rec in PlayerRecords(ps, ls, ts, "all", 0)
  {
    PlayersListed(ps, ls, ts, level, team, rec);
    PlayersListed(ps, ls, ts, "all", 0, rec);
  }

  /** Listing rows of joined rows in name order, with duplicates removed,
      are in ascending last-name order. */
  lemma ListingOrdered(sorted: seq<Triple>)
    requires SortedBy(sorted, ByName())
    ensures var rs := Dedup(Select(sorted, PlayerListing));
      && (forall i :: 0 <= i < |rs| ==> |rs[i]| == 6)
      && (forall i, j :: 0 <= i < j < |rs| ==> ValueLe(rs[i][3], rs[j][3]))
  {
    var rows := Select(sorted, PlayerListing);
    var le := (a: Record, b: Record) => |a| == 6 && |b| == 6 && ValueLe(a[3], b[3]);
    forall i, j | 0 <= i < j < |rows|
      ensures le(rows[i], rows[j])
    {
      assert ByName()(sorted[i], sorted[j]);
    }
    DedupSorted(rows, le);
    var rs := Dedup(rows);
    forall i | 0 <= i < |rs|
      ensures |rs[i]| == 6
    {
      assert rs[i] in rows;
    }
  }

  /** The listing is in ascending last-name order. */
  lemma PlayersOrdered(ps: seq<Row>, ls: seq<Row>, ts: seq<Row>, level: string, team: nat)
    ensures var rs := PlayerRecords(ps, ls, ts, level, team);
      && (forall i :: 0 <= i < |rs| ==> |rs[i]| == 6)
      && (forall i, j :: 0 <= i < j < |rs| ==> ValueLe(rs[i][3], rs[j][3]))
  {
    var sorted := PlayersSorted(ps, ls, ts, level, team);
    assert PlayerRecords(ps, ls, ts, level, team) == Dedup(Select(sorted, PlayerListing));
    ListingOrdered(sorted);
  }

  // ---------------------------------------------------------------------
  // /<level>/teams

  predicate TeamJoined(x: (Row, Row), level: string)
  {
    SqlEq(Get(x.1, "id"), Get(x.0, "leaguelevel_id")) && LevelOk(level, Get(x.1, "abbreviation"))
  }

  /** t.id, t.name, l.abbreviation, l.name. */
  function TeamListing(x: (Row, Row)): Record
  {
    [Get(x.0, "id"), Get(x.0, "name"), Get(x.1, "abbreviation"), Get(x.1, "name")]
  }

  /** The teams listing over d_teams (ts) and d_leaguelevel (ls): each
      distinct row once, and exactly the rows of teams joined to a league
      level that passes the level filter. */
  function TeamRecords(ts: seq<Row>, ls: seq<Row>, level: string): (r: seq<Record>)
    ensures NoDuplicates(r)
    ensures forall rec :: rec in r <==>
      exists x: (Row, Row) :: x.0 in ts && x.1 in ls && TeamJoined(x, level) && rec == TeamListing(x)
  {
    var keep := x => TeamJoined(x, level);
    forall rec
      ensures rec in Select(Filter(Pairs(ts, ls), keep), TeamListing) <==>
        exists x: (Row, Row) :: x.0 in ts && x.1 in ls && TeamJoined(x, level) && rec == TeamListing(x)
    {
      JoinMembers(ts, ls, keep, TeamListing, rec);
    }
    Dedup(Select(Filter(Pairs(ts, ls), keep), TeamListing))
  }

  const TeamTables: set<string> := {"d_teams", "d_leaguelevel"}

  /** The teams page. */
  function Teams(db: Tables, level: string): (r: Option<seq<Record>>)
    ensures r.Some? <==> TeamTables <= db.Keys
    ensures r.Some? ==> r.value == TeamRecords(db["d_teams"], db["d_leaguelevel"], level)
  {
    if !(TeamTables <= db.Keys) then None
    else Some(TeamRecords(db["d_teams"], db["d_leaguelevel"], level))
  }

  // ---------------------------------------------------------------------
  // /level

  /** The level page: every distinct league-level row. */
  function Levels(db: Tables): (r: Option<seq<Row>>)
    ensures r.Some? <==> "d_leaguelevel" in db
    ensures r.Some? ==> NoDuplicates(r.value) && forall row :: row in r.value <==> row in db["d_leaguelevel"]
  {
    if "d_leaguelevel" !in db then None else Some(Dedup(db["d_leaguelevel"]))
  }

  // ---------------------------------------------------------------------
  // /players/<int:id>

  /** The labels of the position codes 1 to 9. */
  const PositionNames: seq<string> := ["P", "C", "1B", "2B", "3B", "SS", "LF", "CF", "RF"]

  /** `CASE p.primaryPosition WHEN k`: the column holds text, so the number
      k matches its own decimal spelling (an integer cell matches k itself). */
  predicate CaseMatches(v: Value, k: int)
    ensures CaseMatches(v, k) ==> SqlEq(v, Int(k))
    ensures v.Str? ==> (CaseMatches(v, k) <==> v.s == DecimalText(k))
    ensures v.Int? ==> (CaseMatches(v, k) <==> v.i == k)
    ensures !v.Int? && !v.Str? ==> !CaseMatches(v, k)
  {
    ParseDecimalText(k);
    v == Int(k) || v == Str(DecimalText(k))
  }

  /** The position label of a primary-position code: P, C, 1B, 2B, 3B, SS,
      LF, CF, RF for codes 1 to 9, UTIL for anything else, null included. */
  function PositionLabel(v: Value): (name: string)
    ensures forall k :: 1 <= k <= 9 && CaseMatches(v, k) ==> name == PositionNames[k - 1]
    ensures name == "UTIL" <==> forall k :: 1 <= k <= 9 ==> !CaseMatches(v, k)
  {
    if CaseMatches(v, 1) then "P"
    else if CaseMatches(v, 2) then "C"
    else if CaseMatches(v, 3) then "1B"
    else if CaseMatches(v, 4) then "2B"
    else if CaseMatches(v, 5) then "3B"
    else if CaseMatches(v, 6) then "SS"
    else if CaseMatches(v, 7) then "LF"
    else if CaseMatches(v, 8) then "CF"
    else if CaseMatches(v, 9) then "RF"
    else "UTIL"
  }

  /** The join and WHERE conditions of the player card. */
  predicate CardJoined(x: Triple, id: nat)
  {
    var p, l, t := x.0.0, x.0.1, x.1;
    && SqlEq(Get(l, "id"), Get(p, "league_id"))
    && SqlEq(Get(t, "id"), Get(p, "currentTeam"))
    && SqlEq(Get(p, "id"), Int(id))
  }

  /** p.fullName, t.name, p.primaryNumber, l.abbreviation, l.name (league),
      p.primaryPosition, p.height, p.weight, p.batSide, p.pitchHand,
      mlbDebutDate, birthDate, position. */
  function CardRecord(x: Triple): Record
  {
    var p, l, t := x.0.0, x.0.1, x.1;
    [Get(p, "fullName"), Get(t, "name"), Get(p, "primaryNumber"), Get(l, "abbreviation"), Get(l, "name"),
     Get(p, "primaryPosition"), Get(p, "height"), Get(p, "weight"), Get(p, "batSide"), Get(p, "pitchHand"),
     Get(p, "mlbDebutDate"), Get(p, "birthDate"), Str(PositionLabel(Get(p, "primaryPosition")))]
  }

  lemma CardRecordPosition(x: Triple)
    ensures |CardRecord(x)| == 13 && CardRecord(x)[12] == Str(PositionLabel(CardRecord(x)[5]))
  {
  }

  /** The card of the player page (`fetchone`) over d_player (ps),
      d_leaguelevel (ls) and d_teams (ts): the first joined row of the
      player, none when the player has no level or team to join. */
  function CardOf(ps: seq<Row>, ls: seq<Row>, ts: seq<Row>, id: nat): (r: Option<Record>)
    ensures r.Some? <==> exists x: Triple :: x.0.0 in ps && x.0.1 in ls && x.1 in ts && CardJoined(x, id)
    ensures r.Some? ==> exists x: Triple :: x.0.0 in ps && x.0.1 in ls && x.1 in ts && CardJoined(x, id) && r.value == CardRecord(x)
    ensures r.Some? ==> |r.value| == 13 && r.value[12] == Str(PositionLabel(r.value[5]))
  {
    var matches := Filter(Cross3(ps, ls, ts), x => CardJoined(x, id));
    if matches == [] then None
    else
      var x := matches[0];
      assert x in matches;
      CardRecordPosition(x);
      Some(CardRecord(x))
  }

  /** The card query of the player page; a missing table fails it. */
  function PlayerCard(db: Tables, id: nat): (r: Option<Option<Record>>)
    ensures r.Some? <==> PlayerTables <= db.Keys
    ensures r.Some? ==> r.value == CardOf(db["d_player"], db["d_leaguelevel"], db["d_teams"], id)
  {
    if !(PlayerTables <= db.Keys) then None
    else Some(CardOf(db["d_player"], db["d_leaguelevel"], db["d_teams"], id))
  }

  // ---------------------------------------------------------------------
  // The hitting and pitching tables of the player page

  predicate CareerJoined(x: (Row, Row), id: nat)
  {
    SqlEq(Get(x.1, "id"), Get(x.0, "team_id")) && SqlEq(Get(x.0, "player_id"), Int(id))
  }

  /** The WHERE clause of the career query as a condition on joined pairs. */
  function CareerKeep(id: nat): ((Row, Row)) -> bool
  {
    x => CareerJoined(x, id)
  }

  /** `h.*, UPPER(t.teamCode) teamCode`. */
  function CareerRow(x: (Row, Row)): Row
  {
    x.0["teamCode" := Upper(Get(x.1, "teamCode"))]
  }

  /** ORDER BY season DESC. */
  function BySeasonDesc(): (Row, Row) -> bool
  {
    (a: Row, b: Row) => ValueLe(Get(b, "season"), Get(a, "season"))
  }

  lemma BySeasonDescOrder()
    ensures TotalPreorder(BySeasonDesc())
  {
    forall a: Row, b: Row
      ensures BySeasonDesc()(a, b) || BySeasonDesc()(b, a)
    {
      ValueLeTotal(Get(a, "season"), Get(b, "season"));
    }
    forall a: Row, b: Row, c: Row | BySeasonDesc()(a, b) && BySeasonDesc()(b, c)
      ensures BySeasonDesc()(a, c)
    {
      ValueLeTrans(Get(c, "season"), Get(b, "season"), Get(a, "season"));
    }
  }

  /** One season-stat table of the player page over its fact table (fs,
      f_hitting or f_pitching) and d_teams (ts): the player's rows, each with
      its team's code upper-cased, latest season first. */
  function CareerOf(fs: seq<Row>, ts: seq<Row>, id: nat): (r: seq<Row>)
    ensures SortedBy(r, BySeasonDesc())
    ensures multiset(r) == multiset(Select(Filter(Pairs(fs, ts), CareerKeep(id)), CareerRow))
    ensures forall row :: row in r <==>
      exists x: (Row, Row) :: x.0 in fs && x.1 in ts && CareerJoined(x, id) && row == CareerRow(x)
  {
    var keep := CareerKeep(id);
    var rows := Select(Filter(Pairs(fs, ts), keep), CareerRow);
    forall row
      ensures row in rows <==> exists x: (Row, Row) :: x.0 in fs && x.1 in ts && CareerJoined(x, id) && row == CareerRow(x)
    {
      JoinMembers(fs, ts, keep, CareerRow, row);
    }
    BySeasonDescOrder();
    SortByMembers(rows, BySeasonDesc());
    SortBy(rows, BySeasonDesc())
  }

  /** Every career row is the requested player's, and its team code is
      upper-case (upper-casing it again changes nothing). */
  lemma CareerRows(fs: seq<Row>, ts: seq<Row>, id: nat, row: Row)
    requires row in CareerOf(fs, ts, id)
    ensures SqlEq(Get(row, "player_id"), Int(id))
    ensures Upper(Get(row, "teamCode")) == Get(row, "teamCode")
  {
    var x: (Row, Row) :| x.0 in fs && x.1 in ts && CareerJoined(x, id) && row == CareerRow(x);
    UpperIdempotent(Get(x.1, "teamCode"));
  }

  /** The hitting (facts = "f_hitting") or pitching (facts = "f_pitching")
      query of the player page; a missing table fails it. */
  function Career(db: Tables, facts: string, id: nat): (r: Option<seq<Row>>)
    ensures r.Some? <==> facts in db && "d_teams" in db
    ensures r.Some? ==> r.value == CareerOf(db[facts], db["d_teams"], id)
  {
    if facts !in db || "d_teams" !in db then None
    else Some(CareerOf(db[facts], db["d_teams"], id))
  }
}
