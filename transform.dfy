/** The reshaping of raw statistics-feed records into table rows
    (stats_load.py, the DataFrame code of each loader function). Every
    operation that pandas would abort with an exception (a missing column in
    a projection, `.get` on a cell that is not an object, a date that does not
    parse, an empty season-stat page) yields None. */
module Transform {
  import opened Values

  /** The columns a player row is projected to, in table order. */
  const PlayerColumns: seq<string> := ["id", "fullName", "firstName", "lastName", "primaryNumber",
    "birthDate", "height", "weight", "currentTeam", "primaryPosition",
    "mlbDebutDate", "batSide", "pitchHand"]

  /** The columns of d_player: the projected ones, then the derived league id. */
  const PlayerTableColumns: seq<string> := PlayerColumns + ["league_id"]

  /** The same columns as a set. */
  const PlayerColumnSet: set<string> := {"id", "fullName", "firstName", "lastName", "primaryNumber",
    "birthDate", "height", "weight", "currentTeam", "primaryPosition",
    "mlbDebutDate", "batSide", "pitchHand"}

  const PlayerTableColumnSet: set<string> := PlayerColumnSet + {"league_id"}

  const SportColumns: seq<string> := ["id", "abbreviation", "name", "link"]

  /** The columns a team record must offer. */
  const TeamColumns: seq<string> := ["id", "name", "sport", "teamCode"]

  /** The columns of d_teams. */
  const TeamTableColumns: seq<string> := ["id", "name", "leaguelevel_id", "teamCode"]

  /** The synthetic team that stands for unaffiliated high-school players. */
  const UnknownTeam: Row := map["id" := Int(1), "name" := Str("Unknown HS Team"),
    "leaguelevel_id" := Int(586), "teamCode" := Str("UNK")]

  /** The nested columns removed from a season-stat row once their ids are lifted out. */
  const DroppedStatColumns: set<string> := {"stat", "player", "sport", "league", "team", "position", "numTeams"}

  /** The id columns lifted out of a season-stat split. */
  const StatIdColumns: set<string> := {"player_id", "leaguelevel_id", "team_id"}

  // ---------------------------------------------------------------------
  // Columns and projection

  /** The record set has the column: some record holds the key (pandas builds
      a frame's columns from the union of its records' keys). */
  predicate HasColumn(records: seq<Row>, c: string)
  {
    exists i :: 0 <= i < |records| && c in records[i]
  }

  predicate HasColumns(records: seq<Row>, cols: seq<string>)
  {
    forall c :: c in cols ==> HasColumn(records, c)
  }

  /** One record restricted to the listed columns, null where the record lacks one. */
  function Project(r: Row, cols: seq<string>): (p: Row)
    ensures forall c :: c in p <==> c in cols
    ensures forall c :: c in cols ==> p[c] == Get(r, c)
  {
    map c | c in cols :: Get(r, c)
  }

  // ---------------------------------------------------------------------
  // Flattening nested objects

  /** `x.get(key) if not pd.isna(x) else x`: an object is reduced to one of its
      fields, null passes through, any other cell has no `.get`. */
  function FlattenNullable(v: Value, key: string): (out: Option<Value>)
    ensures out.Some? <==> (v.Null? || v.Obj?)
    ensures v.Null? ==> out == Some(Null)
    ensures v.Obj? ==> out == Some(Get(v.fields, key))
  {
    match v
    case Null => Some(Null)
    case Obj(m) => Some(Get(m, key))
    case _ => None
  }

  /** `x.get(key)` with no null guard: only an object has a field to give. */
  function FlattenStrict(v: Value, key: string): (out: Option<Value>)
    ensures out.Some? <==> v.Obj?
    ensures v.Obj? ==> out == Some(Get(v.fields, key))
  {
    if v.Obj? then Some(Get(v.fields, key)) else None
  }

  // ---------------------------------------------------------------------
  // Dates

  /** The texts `pd.to_datetime` reads as a missing date (NaT). */
  const NaTTexts: set<string> := {"", "NaT", "nat", "NAT", "nan", "NaN", "NAN"}

  /** `pd.to_datetime(...).dt.date` on one cell: null stays null, a date is
      kept, a text spelling of NaT becomes null, other text is handed to the
      date parser (which raises when it cannot parse), and no other cell is
      accepted. */
  function ToDate(v: Value, parse: string -> Option<Date>): (out: Option<Value>)
    ensures out.Some? <==> DateCellOk(v, parse)
    ensures out.Some? ==> out.value.Null? || out.value.Day?
    ensures v.Null? ==> out == Some(Null)
    ensures v.Day? ==> out == Some(v)
    ensures v.Str? && v.s in NaTTexts ==> out == Some(Null)
    ensures v.Str? && v.s !in NaTTexts && parse(v.s).Some? ==> out == Some(Day(parse(v.s).value))
  {
    match v
    case Null => Some(Null)
    case Day(d) => Some(Day(d))
    case Str(s) =>
      if s in NaTTexts then Some(Null)
      else (match parse(s) case None => None case Some(d) => Some(Day(d)))
    case _ => None
  }

  predicate DateCellOk(v: Value, parse: string -> Option<Date>)
  {
    v.Null? || v.Day? || (v.Str? && (v.s in NaTTexts || parse(v.s).Some?))
  }

  /** Converting a cell that is already a date, or null, changes nothing. */
  lemma ToDateIdempotent(v: Value, parse: string -> Option<Date>)
    requires ToDate(v, parse).Some?
    ensures ToDate(ToDate(v, parse).value, parse) == ToDate(v, parse)
  {
  }

  // ---------------------------------------------------------------------
  // Players (get_all_players)

  predicate EndsWith(s: string, suffix: string)
  {
    |suffix| <= |s| && s[|s| - |suffix|..] == suffix
  }

  /** `sports_link.split('/')[-1]`: the text after the last '/', or the whole
      link when it has none. */
  function LastSegment(link: string): (seg: string)
    ensures '/' !in seg
    ensures EndsWith(link, seg)
    ensures |seg| < |link| ==> link[|link| - |seg| - 1] == '/'
  {
    if link == [] then []
    else if link[|link| - 1] == '/' then []
    else LastSegment(link[..|link| - 1]) + [link[|link| - 1]]
  }

  /** The last segment of a link ending in "/<seg>" is seg. */
  lemma {:induction false} LastSegmentAfterSlash(prefix: string, seg: string)
    requires '/' !in seg
    ensures LastSegment(prefix + "/" + seg) == seg
  {
    var s := prefix + "/" + seg;
    if seg != [] {
      var init := seg[..|seg| - 1];
      assert s[..|s| - 1] == prefix + "/" + init;
      LastSegmentAfterSlash(prefix, init);
      assert init + [seg[|seg| - 1]] == seg;
    }
  }

  predicate NestedCellOk(v: Value) { v.Null? || v.Obj? }

  /** A player record reshapes without an exception: its nested columns are
      objects or null and its date columns parse. */
  predicate PlayerRowOk(r: Row, parse: string -> Option<Date>)
  {
    && NestedCellOk(Get(r, "primaryPosition"))
    && NestedCellOk(Get(r, "batSide"))
    && NestedCellOk(Get(r, "pitchHand"))
    && NestedCellOk(Get(r, "currentTeam"))
    && DateCellOk(Get(r, "mlbDebutDate"), parse)
    && DateCellOk(Get(r, "birthDate"), parse)
  }

  /** The d_player cell of column c made from the record's cell v of that
      column: the derived league id, a nested code or team id, a parsed date,
      or the cell itself. */
  function PlayerCell(c: string, v: Value, leagueId: string, parse: string -> Option<Date>): Value
  {
    if c == "league_id" then Str(leagueId)
    else if c == "primaryPosition" || c == "batSide" || c == "pitchHand" then FlattenNullable(v, "code").GetOr(Null)
    else if c == "currentTeam" then FlattenNullable(v, "id").GetOr(Null)
    else if c == "mlbDebutDate" || c == "birthDate" then ToDate(v, parse).GetOr(Null)
    else v
  }

  /** A column the record does not hold comes out null, whatever kind of column it is. */
  lemma PlayerCellNull(c: string, leagueId: string, parse: string -> Option<Date>)
    requires c != "league_id"
    ensures PlayerCell(c, Null, leagueId, parse) == Null
  {
  }

  /** The cells of a record's d_player row, one per d_player column. */
  function PlayerCells(r: Row, leagueId: string, parse: string -> Option<Date>): Row
  {
    map c | c in PlayerTableColumnSet :: PlayerCell(c, Get(r, c), leagueId, parse)
  }

  lemma PlayerCellsIds(r: Row, leagueId: string, parse: string -> Option<Date>)
    ensures var m := PlayerCells(r, leagueId, parse);
      && m.Keys == PlayerTableColumnSet
      && m["league_id"] == Str(leagueId)
      && m["id"] == Get(r, "id") && m["fullName"] == Get(r, "fullName")
  {
  }

  lemma PlayerCellsNames(r: Row, leagueId: string, parse: string -> Option<Date>)
    ensures var m := PlayerCells(r, leagueId, parse);
      && m["firstName"] == Get(r, "firstName") && m["lastName"] == Get(r, "lastName")
      && m["primaryNumber"] == Get(r, "primaryNumber")
  {
  }

  lemma PlayerCellsBuild(r: Row, leagueId: string, parse: string -> Option<Date>)
    ensures var m := PlayerCells(r, leagueId, parse);
      m["height"] == Get(r, "height") && m["weight"] == Get(r, "weight")
  {
  }

  lemma PlayerCellsNested(r: Row, leagueId: string, parse: string -> Option<Date>)
    requires PlayerRowOk(r, parse)
    ensures var m := PlayerCells(r, leagueId, parse);
      && Some(m["primaryPosition"]) == FlattenNullable(Get(r, "primaryPosition"), "code")
      && Some(m["batSide"]) == FlattenNullable(Get(r, "batSide"), "code")
      && Some(m["pitchHand"]) == FlattenNullable(Get(r, "pitchHand"), "code")
      && Some(m["currentTeam"]) == FlattenNullable(Get(r, "currentTeam"), "id")
  {
  }

  lemma PlayerCellsDates(r: Row, leagueId: string, parse: string -> Option<Date>)
    requires PlayerRowOk(r, parse)
    ensures var m := PlayerCells(r, leagueId, parse);
      && Some(m["mlbDebutDate"]) == ToDate(Get(r, "mlbDebutDate"), parse)
      && Some(m["birthDate"]) == ToDate(Get(r, "birthDate"), parse)
  {
  }

  /** One player record as a d_player row: the league id of the sport, the
      plain columns copied, the nested codes and team id flattened (null
      staying null), and the dates parsed. */
  function PlayerRow(r: Row, leagueId: string, parse: string -> Option<Date>): (out: Option<Row>)
    ensures out.Some? <==> PlayerRowOk(r, parse)
    ensures out.Some? ==> out.value.Keys == PlayerTableColumnSet
    ensures out.Some? ==> out.value["league_id"] == Str(leagueId)
    ensures out.Some? ==> out.value["id"] == Get(r, "id") && out.value["fullName"] == Get(r, "fullName")
    ensures out.Some? ==> out.value["firstName"] == Get(r, "firstName") && out.value["lastName"] == Get(r, "lastName")
    ensures out.Some? ==> out.value["primaryNumber"] == Get(r, "primaryNumber")
    ensures out.Some? ==> out.value["height"] == Get(r, "height") && out.value["weight"] == Get(r, "weight")
    ensures out.Some? ==> Some(out.value["primaryPosition"]) == FlattenNullable(Get(r, "primaryPosition"), "code")
    ensures out.Some? ==> Some(out.value["batSide"]) == FlattenNullable(Get(r, "batSide"), "code")
    ensures out.Some? ==> Some(out.value["pitchHand"]) == FlattenNullable(Get(r, "pitchHand"), "code")
    ensures out.Some? ==> Some(out.value["currentTeam"]) == FlattenNullable(Get(r, "currentTeam"), "id")
    ensures out.Some? ==> Some(out.value["mlbDebutDate"]) == ToDate(Get(r, "mlbDebutDate"), parse)
    ensures out.Some? ==> Some(out.value["birthDate"]) == ToDate(Get(r, "birthDate"), parse)
  {
    if PlayerRowOk(r, parse) then
      PlayerCellsIds(r, leagueId, parse);
      PlayerCellsNames(r, leagueId, parse);
      PlayerCellsBuild(r, leagueId, parse);
      PlayerCellsNested(r, leagueId, parse);
      PlayerCellsDates(r, leagueId, parse);
      Some(PlayerCells(r, leagueId, parse))
    else None
  }

  /** The player payload of one sport as d_player rows, one per record in
      payload order, each stamped with the sport's id taken from its link. */
  function TransformPlayers(records: seq<Row>, link: string, parse: string -> Option<Date>): (out: Option<seq<Row>>)
    ensures out.Some? <==> forall i :: 0 <= i < |records| ==> PlayerRowOk(records[i], parse)
    ensures out.Some? ==> |out.value| == |records|
    ensures out.Some? ==> forall i :: 0 <= i < |records| ==>
      Some(out.value[i]) == PlayerRow(records[i], LastSegment(link), parse)
  {
    var leagueId := LastSegment(link);
    MapOpt(records, r => PlayerRow(r, leagueId, parse))
  }

  /** A player row has a null cell for each column its record lacks. */
  lemma PlayerRowAbsent(r: Row, leagueId: string, parse: string -> Option<Date>, c: string)
    requires PlayerRow(r, leagueId, parse).Some?
    requires c in PlayerColumnSet && c !in r
    ensures PlayerRow(r, leagueId, parse).value[c] == Null
  {
    assert c != "league_id";
    PlayerCellNull(c, leagueId, parse);
  }

  /** Every row has exactly the d_player columns and the league id of the
      link, and a column that no record of the payload holds is null in every
      row. */
  lemma PlayersSchema(records: seq<Row>, link: string, parse: string -> Option<Date>, c: string)
    requires TransformPlayers(records, link, parse).Some?
    requires c in PlayerColumnSet && !HasColumn(records, c)
    ensures forall i :: 0 <= i < |records| ==>
      TransformPlayers(records, link, parse).value[i].Keys == PlayerTableColumnSet &&
      TransformPlayers(records, link, parse).value[i]["league_id"] == Str(LastSegment(link)) &&
      TransformPlayers(records, link, parse).value[i][c] == Null
  {
    var rows := TransformPlayers(records, link, parse).value;
    var seg := LastSegment(link);
    forall i | 0 <= i < |records|
      ensures rows[i].Keys == PlayerTableColumnSet && rows[i]["league_id"] == Str(seg) && rows[i][c] == Null
    {
      assert c !in records[i];
      PlayerRowAbsent(records[i], seg, parse, c);
    }
  }

  /** The ids get_all_players returns: the id column in payload order. */
  function PlayerIds(rows: seq<Row>): seq<Value>
  {
    seq(|rows|, i requires 0 <= i < |rows| => Get(rows[i], "id"))
  }

  /** The ids of two row sequences one after the other. */
  lemma PlayerIdsConcat(a: seq<Row>, b: seq<Row>)
    ensures PlayerIds(a + b) == PlayerIds(a) + PlayerIds(b)
  {
  }

  /** The returned ids are the payload's own ids, in payload order. */
  lemma PlayerIdsOfPayload(records: seq<Row>, link: string, parse: string -> Option<Date>)
    requires TransformPlayers(records, link, parse).Some?
    ensures PlayerIds(TransformPlayers(records, link, parse).value) == PlayerIds(records)
  {
    var rows := TransformPlayers(records, link, parse).value;
    forall i | 0 <= i < |records|
      ensures Get(rows[i], "id") == Get(records[i], "id")
    {
      assert Some(rows[i]) == PlayerRow(records[i], LastSegment(link), parse);
    }
  }

  // ---------------------------------------------------------------------
  // League levels (get_all_sports)

  /** The sports payload as d_leaguelevel rows; fails when one of the four
      columns is held by no record (an empty payload included). */
  function TransformSports(records: seq<Row>): (out: Option<seq<Row>>)
    ensures out.Some? <==> HasColumns(records, SportColumns)
    ensures out.Some? ==> |out.value| == |records| && |records| > 0
    ensures out.Some? ==> forall i :: 0 <= i < |records| ==>
      (forall c :: c in out.value[i] <==> c in SportColumns) &&
      (forall c :: c in SportColumns ==> out.value[i][c] == Get(records[i], c))
  {
    if HasColumns(records, SportColumns) then
      assert HasColumn(records, "id");
      Some(seq(|records|, i requires 0 <= i < |records| => Project(records[i], SportColumns)))
    else None
  }

  /** `i['link']` of one raw sport record, used as a string. */
  function SportLink(r: Row): (link: Option<string>)
    ensures link.Some? <==> Get(r, "link").Str?
    ensures link.Some? ==> Get(r, "link") == Str(link.value)
  {
    if "link" in r && r["link"].Str? then Some(r["link"].s) else None
  }

  // ---------------------------------------------------------------------
  // Teams (get_teams)

  /** One team record as a d_teams row: its league level is the id of its sport. */
  function TeamRow(r: Row): (out: Option<Row>)
    ensures out.Some? <==> Get(r, "sport").Obj?
    ensures out.Some? ==> forall c :: c in out.value <==> c in TeamTableColumns
    ensures out.Some? ==> out.value["id"] == Get(r, "id") && out.value["name"] == Get(r, "name")
    ensures out.Some? ==> out.value["teamCode"] == Get(r, "teamCode")
    ensures out.Some? ==> out.value["leaguelevel_id"] == Get(Get(r, "sport").fields, "id")
  {
    var league :- FlattenStrict(Get(r, "sport"), "id");
    Some(map["id" := Get(r, "id"), "name" := Get(r, "name"), "leaguelevel_id" := league, "teamCode" := Get(r, "teamCode")])
  }

  /** The teams payload as d_teams rows: one row per team, in payload order,
      followed by the synthetic unknown team. */
  function TransformTeams(records: seq<Row>): (out: Option<seq<Row>>)
    ensures out.Some? <==> HasColumns(records, TeamColumns) && forall i :: 0 <= i < |records| ==> Get(records[i], "sport").Obj?
    ensures out.Some? ==> |out.value| == |records| + 1 && out.value[|records|] == UnknownTeam
    ensures out.Some? ==> forall i :: 0 <= i < |records| ==> Some(out.value[i]) == TeamRow(records[i])
  {
    if !HasColumns(records, TeamColumns) then None
    else
      var rows :- MapOpt(records, TeamRow);
      Some(rows + [UnknownTeam])
  }

  // ---------------------------------------------------------------------
  // Stat groups (get_stat_groups)

  /** `[x.get('displayName') for x in r]`. */
  function StatGroupNames(records: seq<Row>): (names: seq<Value>)
    ensures |names| == |records|
    ensures forall i :: 0 <= i < |records| ==> names[i] == Get(records[i], "displayName")
  {
    seq(|records|, i requires 0 <= i < |records| => Get(records[i], "displayName"))
  }

  /** The groups whose season stats are loaded. */
  predicate IsLoadedGroup(g: Value)
  {
    g == Str("hitting") || g == Str("pitching")
  }

  // ---------------------------------------------------------------------
  // Season stats (get_player_season_stats)

  /** The columns `apply(pd.Series)` makes of a split's stat cell: the fields
      of an object, none for null, and a single column "0" holding any other
      cell. */
  function StatFields(r: Row): map<string, Value>
  {
    match Get(r, "stat")
    case Obj(m) => m
    case Null => map[]
    case v => map["0" := v]
  }

  /** A split reshapes without an exception: its player, sport and team are
      objects whose ids can be taken. */
  predicate SplitRowOk(r: Row)
  {
    Get(r, "player").Obj? && Get(r, "sport").Obj? && Get(r, "team").Obj?
  }

  /** One split as a fact row: the three ids are lifted out of their objects,
      every stat column is added, and none of the dropped nested columns
      remains. */
  function SplitRow(r: Row): (out: Option<Row>)
    ensures out.Some? <==> SplitRowOk(r)
    ensures out.Some? ==> out.value.Keys == ((r.Keys + StatFields(r).Keys) - DroppedStatColumns) + StatIdColumns
    ensures out.Some? ==> out.value["player_id"] == Get(Get(r, "player").fields, "id")
    ensures out.Some? ==> out.value["leaguelevel_id"] == Get(Get(r, "sport").fields, "id")
    ensures out.Some? ==> out.value["team_id"] == Get(Get(r, "team").fields, "id")
    ensures out.Some? ==> forall c :: c in DroppedStatColumns ==> c !in out.value
    ensures out.Some? ==> forall k :: k in StatFields(r) && k !in DroppedStatColumns && k !in StatIdColumns ==>
      k in out.value && out.value[k] == StatFields(r)[k]
    ensures out.Some? ==> forall k :: k in r && k !in StatFields(r) && k !in DroppedStatColumns && k !in StatIdColumns ==>
      k in out.value && out.value[k] == r[k]
  {
    var player :- FlattenStrict(Get(r, "player"), "id");
    var sport :- FlattenStrict(Get(r, "sport"), "id");
    var team :- FlattenStrict(Get(r, "team"), "id");
    var expanded := (r + StatFields(r)) - DroppedStatColumns;
    Some(expanded["player_id" := player]["leaguelevel_id" := sport]["team_id" := team])
  }

  /** `df.drop(columns=[...])` needs every dropped column among the frame's
      columns: the keys of the splits and of their stat objects. */
  predicate DroppedColumnsPresent(splits: seq<Row>)
  {
    forall c :: c in DroppedStatColumns ==>
      exists i :: 0 <= i < |splits| && (c in splits[i] || c in StatFields(splits[i]))
  }

  /** One page of season-stat splits as fact rows; an empty page, a split
      without its player, sport or team object, or a dropped column that no
      split holds aborts the load. */
  function TransformSplits(splits: seq<Row>): (out: Option<seq<Row>>)
    ensures out.Some? <==> splits != [] && (forall i :: 0 <= i < |splits| ==> SplitRowOk(splits[i])) && DroppedColumnsPresent(splits)
    ensures out.Some? ==> |out.value| == |splits|
    ensures out.Some? ==> forall i :: 0 <= i < |splits| ==> Some(out.value[i]) == SplitRow(splits[i])
  {
    if splits == [] then None
    else
      var rows :- MapOpt(splits, SplitRow);
      if DroppedColumnsPresent(splits) then Some(rows) else None
  }

  // ---------------------------------------------------------------------
  // Season window (load_stats_data)

  /** The most recent season whose regular season is over on `today`: a season
      counts as over once October has passed. */
  function AnchorYear(today: Date): (year: int)
    ensures year < today.year || (year == today.year && today.month > 10)
    ensures !(year + 1 < today.year || (year + 1 == today.year && today.month > 10))
  {
    if today.month <= 10 then today.year - 1 else today.year
  }

  /** `range(anchor - numYears, anchor + 1)`: the trailing window of seasons in ascending order. */
  function Seasons(anchor: int, numYears: int): (years: seq<int>)
    ensures |years| == if numYears >= 0 then numYears + 1 else 0
    ensures forall i :: 0 <= i < |years| ==> anchor - numYears <= years[i] <= anchor
    ensures forall i :: 0 < i < |years| ==> years[i] == years[i - 1] + 1
    ensures forall y :: anchor - numYears <= y <= anchor ==> y in years
  {
    var n := if numYears >= 0 then numYears + 1 else 0;
    var years := seq(n, i requires 0 <= i < n => anchor - numYears + i);
    forall y | anchor - numYears <= y <= anchor
      ensures y in years
    {
      assert years[y - (anchor - numYears)] == y;
    }
    years
  }
}
