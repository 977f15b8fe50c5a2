# Baseball statistics store: loader and card queries

This project models the two halves of a small baseball-statistics
application:

* **The loader** (`stats_load.py`) rebuilds a relational store from the MLB
  statistics feed. It drops every table, then:
  * replaces `d_teams` with the teams plus a synthetic "Unknown HS Team";
  * replaces `d_leaguelevel` with the league levels ("sports");
  * appends every level's players to `d_player`;
  * appends the season stats of the `hitting` and `pitching` groups to
    `f_hitting` and `f_pitching`. This covers leagues 103 and 104, for every
    season of a trailing window.
* **The read side** (`baseball_card.py`) is four SQL queries over that store:
  * the players listing, filtered by level and team;
  * the teams of a level;
  * the list of league levels;
  * a player's card with their career hitting and pitching tables.

The model is organised as follows:

* **`values.dfy`** (`Values`): cells and rows.
  * A cell is null, an integer, text, a date or a nested JSON object.
  * A row maps column names to cells; a missing column reads as null.
  * SQL equality follows SQLite's numeric affinity: an integer column joins
    with the text spelling of the integer.
  * It also defines the ORDER BY order on cells and SQL `UPPER`.
* **`transform.dfy`** (`Transform`): the DataFrame reshaping of each loader
  function, as pure functions.
  * Every operation that pandas aborts with an exception yields `None`. These
    are a missing column in a projection, `.get` on a cell that is not an
    object, a date that does not parse, and an empty stats page. The one
    write failure that sqlite3 raises on a well-formed batch, an object cell,
    is not modelled (see "Left out", `Store.Apply`).
* **`store.dfy`** (`Store`): the store.
  * It is a map from table names to row sequences. `to_sql` writes are `Op`s
    in replace or append mode, and `Apply`/`ApplyAll` give their meaning.
  * The database itself is the class `Db`, whose methods update its `tables`
    field in place.
  * `GetTables` and `DropData` are the database-management helpers, written
    as loops.
* **`load.dfy`** (`Load`): the loader functions as methods on a `Db`.
  * Each method is proved to perform exactly the writes of a specification
    function: `TeamsStep`, `SportsStep`, `GroupStats`, `SeasonStep`, and so
    on.
  * The whole run `LoadStatsData` is proved against `Plan`. `Plan` gives the
    writes of a run in order, and whether the run reached its end.
  * A step that raises ends the run. Writes made before it stay in the store,
    because each `to_sql` commits on its own.
  * Lemmas about `Plan` state what a finished run leaves in the store.
    `PlanPartial` states what a run that stops part-way leaves: once the two
    dimension tables are written they stay complete, and season stats are
    written only after every sport's players are in d_player.
* **`result_sets.dfy`** (`ResultSets`): the result-set operators the queries use:
  * ORDER BY, as a sort under a total preorder;
  * SELECT DISTINCT, as keeping the first occurrence of each row;
  * inner joins, as filtered cross products.
* **`query.dfy`** (`Query`): the four read-side queries as functions of the
  table contents.
  * The two wildcards are the level `'all'` and the team `0`.
  * The position `CASE` maps codes 1 to 9 to P, C, 1B, 2B, 3B, SS, LF, CF and
    RF, and anything else to UTIL.

The HTTP payloads, the date parser and today's date are parameters. The
loader methods receive the feed's answers as a `Source` value, a date parser
`string -> Option<Date>`, and the date of the run.

Two behaviours of the code shape the model, and the model follows the code
in both:

* **Dates.** The code calls `pd.to_datetime` without `errors='coerce'`, so a
  date that does not parse raises and ends the run. The model fails the step
  (`ToDate` is `None`). Text that pandas reads as a missing date (`""`,
  `"NaT"`, `"nan"` and their case variants) becomes null.
* **Missing columns.** The code adds missing player columns only, filled with
  null. For teams, sports and stat splits, a missing column raises, and
  `TransformTeams`, `TransformSports` and `TransformSplits` fail in that case.

## Model

| member | source | states |
|---|---|---|
| Store.Apply | stats_load.py:93-110 | `to_sql`: replace mode makes the table hold exactly the batch; append mode keeps its rows and adds the batch after them, creating the table when it is missing; no other table changes |
| Store.ApplyFrame | stats_load.py:64 | a write creates its table and leaves every other table as it was |
| Store.ReplaceTwice | stats_load.py:110 | replace mode: the table holds exactly the last batch, whatever was there before |
| Store.AppendCount | stats_load.py:93 | append mode: the table keeps its old rows as a prefix and grows by the batch |
| Store.ApplyAllConcat | stats_load.py:157-168 | running two batches of writes one after the other is running their concatenation |
| Store.ApplyAllUntouched | stats_load.py:157-168 | a table that no write names keeps its rows |
| Store.ReplacedFirst | stats_load.py:158-159 | two distinct tables replaced first and not written again hold their replacement batches |
| Store.ApplyAllAppends | stats_load.py:139 | a table that is only appended to ends with its earlier rows followed by every appended batch, in order |
| Store.AppendedRowsConcat | stats_load.py:93 | the rows two batches append to a table are the first batch's, then the second's |
| Store.AppendedRowsNone | stats_load.py:139 | a batch that never names a table appends nothing to it |
| Store.AppendedRowsWithin | stats_load.py:157-168 | writes to other tables before and after a batch append nothing to the table |
| Store.Db.Replace | stats_load.py:110 | `to_sql(if_exists='replace')`: the new store is `Apply` of a Replace; the table holds the batch |
| Store.Db.Append | stats_load.py:93 | `to_sql(if_exists='append')`: the new store is `Apply` of an Append; old rows, then the batch |
| Store.Db.Drop | stats_load.py:49 | `drop table`: succeeds exactly when the table exists; the table is gone afterwards |
| Store.GetTables | stats_load.py:36-43 | the names of the tables, each exactly once, no other names |
| Store.DropData | stats_load.py:45-49 | succeeds exactly when the names are distinct existing tables, and then exactly those tables are removed; otherwise it stops at the first name that cannot be dropped, and the tables listed before it stay dropped while every other table remains |
| Store.ClearStore | stats_load.py:153 | `drop_data(db, get_tables(db))` succeeds and leaves no table |
| Values.MapOpt | stats_load.py:83-92 | a column-wise apply: succeeds exactly when every row succeeds, with one result per row, in order |
| Values.ParseDecimalText | baseball_card.py:31 | reading back an integer's decimal text (SQLite's numeric affinity) gives the integer |
| Values.SqlEq | baseball_card.py:31-32 | the join equality `=`: NULL and nested objects equal nothing; two integers, two texts or two dates are equal exactly when they are the same; an integer and a text compare under numeric affinity |
| Values.ParseInt | baseball_card.py:31-32 | the integer a text cell stands for under SQLite's numeric affinity: optional '-', then decimal digits; none otherwise (ParseDecimalText is its round trip) |
| Values.SqlEqDecimalText | baseball_card.py:31 | an integer key equals its own decimal text in a join, in both directions |
| Values.SqlEqNull | baseball_card.py:31-32 | NULL equals nothing, so an inner join drops a row whose key is null |
| Values.ValueLeTotal | baseball_card.py:35 | the ORDER BY comparison orders any two cells |
| Values.ValueLeTrans | baseball_card.py:35 | the ORDER BY comparison is transitive |
| Values.StrLeTotal | baseball_card.py:35 | text comparison orders any two strings |
| Values.StrLeTrans | baseball_card.py:35 | text comparison is transitive |
| Values.ValueLe | baseball_card.py:35 | SQLite's ORDER BY order on one cell (also the `season desc` of lines 107 and 113): NULL first, then integers, then text in BINARY order, with dates and objects after; ValueLeTotal and ValueLeTrans make it a total preorder |
| Values.UpperText | baseball_card.py:104 | `UPPER` keeps the length, turns each ASCII lower-case letter into its capital and leaves every other character |
| Values.UpperIdempotent | baseball_card.py:104 | applying `UPPER` twice is applying it once |
| Values.Upper | baseball_card.py:104 | `UPPER(t.teamCode)` (also line 110): a text cell is upper-cased by UpperText, any other cell is unchanged (UpperIdempotent) |
| Transform.Project | stats_load.py:63 | `df[cols]`: the row has exactly the listed columns, each with the record's cell, null when absent |
| Transform.FlattenNullable | stats_load.py:83-90 | `x.get(k) if not isna(x) else x`: null stays null, an object yields its field (null when absent), anything else raises |
| Transform.FlattenStrict | stats_load.py:107 | `x.get('id')` without a null guard: only an object is accepted, and it yields its field |
| Transform.ToDate | stats_load.py:91-92 | `to_datetime(...).dt.date`: null and the text spellings of NaT become null; a date is kept; other text becomes the date the parser reads from it; the conversion fails exactly when the cell is none of these |
| Transform.ToDateIdempotent | stats_load.py:91-92 | converting a converted date cell again changes nothing |
| Transform.LastSegment | stats_load.py:82 | `split('/')[-1]`: a suffix of the link that holds no '/', preceded by '/' unless it is the whole link |
| Transform.LastSegmentAfterSlash | stats_load.py:82 | the segment after the last '/' is recovered exactly |
| Transform.PlayerRow | stats_load.py:72-92 | one player record becomes a d_player row with exactly the 13 projected columns plus league_id; id, fullName, firstName, lastName, primaryNumber, height and weight are the record's cells, the nested cells are flattened and the dates converted; it fails exactly when a nested cell is not an object or null, or a date does not convert |
| Transform.TransformPlayers | stats_load.py:75-93 | the players page succeeds exactly when every record does; one row per record, in order |
| Transform.PlayerCellNull | stats_load.py:77-79 | a null cell stays null through the player-row conversion |
| Transform.PlayerRowAbsent | stats_load.py:77-79 | a projected column missing from a record is null in its row |
| Transform.PlayersSchema | stats_load.py:77-81 | every expected player column that the whole page lacks is present and null in every row; league_id is the link's last segment |
| Transform.PlayerIds | stats_load.py:94 | `df['id']`: the id cell of each row, in order, null when absent (PlayerIdsOfPayload relates it to the payload) |
| Transform.PlayerIdsOfPayload | stats_load.py:94 | the ids returned are the records' ids, in order |
| Transform.TransformSports | stats_load.py:61-63 | the sports page succeeds exactly when it is non-empty and offers the four columns; one projected row per record |
| Transform.SportLink | stats_load.py:160 | `i['link']` is usable exactly when the record's link is text |
| Transform.TeamRow | stats_load.py:106-108 | a team row has exactly id, name, leaguelevel_id and teamCode, with leaguelevel_id being the sport object's id |
| Transform.TransformTeams | stats_load.py:101-109 | one row per team, in order, followed by the Unknown HS Team; fails exactly when a column is missing or a sport is not an object |
| Transform.StatGroupNames | stats_load.py:116 | one name per stat-group record, in order, each being the record's displayName (null when it has none) |
| Transform.StatFields | stats_load.py:135 | `apply(pd.Series)` on the stat cell: an object gives its fields as columns, null gives none, and any other cell gives one column "0" |
| Transform.SplitRow | stats_load.py:131-138 | a split whose player, sport and team are objects becomes a row whose columns are exactly its own and its stat columns, less the seven nested ones, plus player_id, leaguelevel_id and team_id taken from its objects; the other cells are the split's or its stat's |
| Transform.TransformSplits | stats_load.py:131-139 | a stats page succeeds exactly when it is non-empty, every split has its player, sport and team objects, and every dropped column exists; one row per split |
| Transform.AnchorYear | stats_load.py:145-150 | the latest year whose season is over: this year after October, otherwise the previous year |
| Transform.Seasons | stats_load.py:165 | `range(year-n, year+1)`: n+1 consecutive years ending at the anchor, none when n is negative |
| Transform.IsLoadedGroup | stats_load.py:167 | `sg in ('hitting','pitching')`: exactly the two text group names hitting and pitching (SeasonWrites and GroupStepTables use it) |
| Load.Plan | stats_load.py:142-168 | the run of load_stats_data after the tables are dropped: get_teams, get_all_sports, the players of each sport, then each season's loaded groups, stopping at the first step that raises |
| Load.Then | stats_load.py:153-168 | one part of the run after another: the second runs only if the first finished |
| Load.Fold | stats_load.py:159-168 | a `for` loop of the run: one step per element, in order, stopping at the first step that raises (FoldOk, FoldOps, FoldStopsAtFailure) |
| Load.TeamsStep | stats_load.py:96-110 | get_teams: one replace of d_teams with the transformed teams, or a raise when they do not transform |
| Load.SportsStep | stats_load.py:52-64 | get_all_sports: one replace of d_leaguelevel with the projected sports, or a raise |
| Load.PlayersStep | stats_load.py:159-160 | one sport: a raise when its link is not text, else one append of its transformed players to d_player, or a raise when they do not transform |
| Load.PlayersOutcome | stats_load.py:159-161 | the sports loop: PlayersStep for each sport of the payload, in order (PlayersWrites, PlayersTables, PlayersPhaseIds) |
| Load.CollectedIds | stats_load.py:157-161 | `players_list`: the ids of each sport's player records, sport after sport (CollectedIdsStep, PlanPlayers) |
| Load.LeagueStep | stats_load.py:123-139 | one request of get_player_season_stats: one append of the transformed page to f_group, or a raise |
| Load.GroupStats | stats_load.py:121-139 | get_player_season_stats: LeagueStep for league 103, then 104 (GroupStatsWrites) |
| Load.GroupStep | stats_load.py:167-168 | one stat group: GroupStats when it is hitting or pitching, nothing otherwise |
| Load.SeasonStep | stats_load.py:166-168 | one season: GroupStep for each stat group, in the feed's order (SeasonWrites, SeasonTables) |
| Load.StatsOutcome | stats_load.py:163-168 | the season loop: SeasonStep for each season of the window, ascending (StatsWrites, StatsTables) |
| Load.FoldPrefix | stats_load.py:159-168 | a loop's outcome after one more element is its outcome so far, then that element's step |
| Load.FoldStepApply | stats_load.py:159-168 | a loop that has not failed applies the next step's writes on top of its writes so far |
| Load.FoldStopsAtFailure | stats_load.py:159-168 | once a step raises, the run's outcome no longer changes |
| Load.FoldOk | stats_load.py:159-168 | a loop finishes exactly when every one of its steps finishes |
| Load.FoldOps | stats_load.py:159-168 | every write of a loop, finished or stopped by a failure, is a write of one of its steps |
| Load.FoldOpsCount | stats_load.py:159-168 | a finished loop whose steps each write k batches writes k per element |
| Load.GroupStatsWrites | stats_load.py:121-139 | one group and season appends twice to f_group: league 103's page, then league 104's |
| Load.SeasonWrites | stats_load.py:166-168 | a season writes two batches per hitting or pitching group and nothing for other groups |
| Load.StatsWrites | stats_load.py:165-168 | the stats phase writes 2 x (loaded groups) x (n+1 seasons) batches |
| Load.GroupStatsTable | stats_load.py:139 | every write of get_player_season_stats, finished or not, appends to f_group |
| Load.GroupStepTables | stats_load.py:166-168 | a group step, finished or not, appends only to f_hitting or f_pitching |
| Load.SeasonTables | stats_load.py:166-168 | a season, finished or not, appends only to f_hitting or f_pitching |
| Load.StatsTables | stats_load.py:165-168 | the stats phase, finished or not, only appends, and only to f_hitting or f_pitching |
| Load.PlayersTables | stats_load.py:159-161 | the players phase, finished or not, only appends, and only to d_player |
| Load.PlayersWrites | stats_load.py:159-161 | the players phase appends once per sport, always to d_player |
| Load.PlanSplit | stats_load.py:158-168 | a finished run writes exactly: the replace of d_teams with the transformed teams, the replace of d_leaguelevel with the projected sports, then the players phase, then the stats phase |
| Load.PlanTailNames | stats_load.py:159-168 | after its first two writes, a run never writes d_teams or d_leaguelevel again |
| Load.PlanWrites | stats_load.py:142-168 | a finished run: replace d_teams, replace d_leaguelevel, one d_player append per sport, then only fact-table appends |
| Load.PlanDimensions | stats_load.py:103-110 | after a finished run, d_teams holds exactly the teams' rows followed by the Unknown HS Team, and d_leaguelevel holds one row per sport |
| Load.SportAppended | stats_load.py:93-94 | the rows one sport appends to d_player carry that sport's player ids, in payload order |
| Load.PlayersAppended | stats_load.py:159-161 | the rows a finished prefix of the sports loop appends to d_player carry the ids the loop collects |
| Load.PlayersPhaseIds | stats_load.py:159-161 | the rows the whole players phase appends carry every sport's player ids, in order |
| Load.PlayerRowsOf | stats_load.py:158-168 | when d_teams and d_leaguelevel are replaced first and only appends follow, d_player ends with exactly the player batches |
| Load.PlanParts | stats_load.py:158-168 | a finished run writes d_teams, then d_leaguelevel, then the players phase, then the stats phase, and both phases finish |
| Load.PlanPlayers | stats_load.py:157-161 | after a finished run, d_player holds one row per player record of every sport, sport after sport: its id column is exactly the collected ids |
| Load.PlanPartial | stats_load.py:153-168 | a run that gets past get_teams and get_all_sports, finished or not, leaves d_teams and d_leaguelevel exactly as a finished run does; it writes to f_hitting or f_pitching only if the whole players phase finished, and then d_player's id column is exactly the collected ids |
| Load.GetTeams | stats_load.py:96-110 | performs exactly the writes of TeamsStep, and succeeds exactly when it does |
| Load.GetAllSports | stats_load.py:52-65 | performs exactly the writes of SportsStep and returns the sports payload |
| Load.FillMissing | stats_load.py:77-79 | every row keeps its cells, and a listed column that no record holds becomes present, null, in every row |
| Load.PlayerRowSameCells | stats_load.py:77-79 | filling absent columns with null does not change a player row |
| Load.TransformPlayersSameCells | stats_load.py:77-81 | filling absent columns with null does not change the players page |
| Load.GetAllPlayers | stats_load.py:67-94 | appends the transformed page to d_player, fails exactly when the page does not transform, and returns the records' ids |
| Load.GetPlayerSeasonStats | stats_load.py:118-139 | performs exactly the writes of GroupStats for the group and season |
| Load.LoadSport | stats_load.py:159-160 | one sport: performs exactly that sport's player writes, fails exactly when its link is not text or its page does not transform, and returns its players' ids |
| Load.CollectedIdsStep | stats_load.py:159-161 | one more sport adds that sport's player ids after the ids collected so far |
| Load.LoadPlayers | stats_load.py:157-161 | the sports loop performs exactly the players phase's writes, stops at the first failure, and collects every sport's player ids in payload order |
| Load.LoadSeason | stats_load.py:166-168 | the group loop performs exactly one season's writes |
| Load.LoadStats | stats_load.py:165-168 | the season loop performs exactly the writes of every season in turn |
| Load.LoadStatsData | stats_load.py:142-168 | drops every table (ClearStore), then leaves exactly the store that Plan's writes build from an empty store, and reports whether the run finished |
| ResultSets.LexLeTotal | baseball_card.py:35 | ORDER BY on several keys orders any two rows |
| ResultSets.LexLeTrans | baseball_card.py:35 | ORDER BY on several keys is transitive |
| ResultSets.InsertSorted | baseball_card.py:35 | inserting a row into a sorted result keeps it sorted |
| ResultSets.SortBy | baseball_card.py:35 | ORDER BY returns a permutation of its rows that is sorted |
| ResultSets.SortByMembers | baseball_card.py:35 | a sorted result holds exactly the rows it sorted |
| ResultSets.Dedup | baseball_card.py:29 | DISTINCT keeps exactly the rows that occur, each once |
| ResultSets.DedupSorted | baseball_card.py:29-35 | DISTINCT keeps a sorted result sorted |
| ResultSets.DedupNoDuplicates | baseball_card.py:29 | DISTINCT leaves a result without duplicates as it is |
| ResultSets.DedupIdempotent | baseball_card.py:29 | DISTINCT twice is DISTINCT once |
| ResultSets.Pairs | baseball_card.py:30-32 | the cross product of xs and ys has one row per pair of positions: the pair of xs[i] and ys[j] is at position i * m + j, where m is the length of ys, so a pair of rows occurs once for each pair of positions holding them |
| ResultSets.Select | baseball_card.py:29 | the select list maps each row, in order |
| ResultSets.Filter | baseball_card.py:33-34 | WHERE keeps each row that satisfies the condition as often as it occurs, and no other row |
| ResultSets.SelectMembers | baseball_card.py:29 | a result row is selected exactly when some source row maps to it |
| ResultSets.JoinMembers | baseball_card.py:29-34 | a result row of a join is there exactly when some kept pair of rows maps to it |
| Query.LevelOk | baseball_card.py:33 | the level filter: 'all' passes every row; otherwise a text abbreviation passes exactly when it is the level, and a null one never does |
| Query.TeamOk | baseball_card.py:34 | the team filter: 0 passes every row; otherwise an integer team id passes exactly when it is the team, and a null one never does |
| Query.Cross3 | baseball_card.py:30-32 | the three-table product holds exactly the triples of one row from each table |
| Query.ByNameOrder | baseball_card.py:35 | ordering by lastName, then firstName, is a total preorder |
| Query.PlayersSorted | baseball_card.py:30-35 | the joined rows are sorted by name and are exactly the triples joining on league and team and passing both filters |
| Query.PlayerRecords | baseball_card.py:29 | the listing has no duplicate rows |
| Query.PlayersListed | baseball_card.py:29-34 | a row is listed exactly when a player joins a level and a current team that pass the filters |
| Query.ListingFilters | baseball_card.py:33-34 | a joined triple's row has six columns, and its level and team pass the filters |
| Query.PlayersFiltered | baseball_card.py:33-34 | every listed row has six columns; unless the filter is the 'all' or 0 wildcard, its level is the requested level and its team the requested team |
| Query.PlayersNarrow | baseball_card.py:33-34 | every row listed under any filter is listed under 'all' and 0 |
| Query.ListingOrdered | baseball_card.py:29-35 | listing rows taken from joined rows in name order, with duplicates removed, have six columns and ascending lastName |
| Query.PlayersOrdered | baseball_card.py:35 | the listing is in ascending lastName order |
| Query.Players | baseball_card.py:25-37 | available exactly when the three tables exist; the listing of their contents, without duplicates |
| Query.TeamRecords | baseball_card.py:42-46 | a team row is listed exactly when a team joins a level passing the level filter; no duplicates |
| Query.Teams | baseball_card.py:39-48 | available exactly when d_teams and d_leaguelevel exist; the team listing of their contents |
| Query.Levels | baseball_card.py:50-57 | available exactly when d_leaguelevel exists; each of its rows, once |
| Query.CaseMatches | baseball_card.py:77-96 | `CASE p.primaryPosition WHEN k`: a text code matches exactly k's decimal spelling, an integer code exactly k, and no other cell matches; a match is SQL equality with k |
| Query.PositionLabel | baseball_card.py:77-97 | codes 1 to 9 map to P, C, 1B, 2B, 3B, SS, LF, CF, RF; the result is UTIL exactly when no code matches |
| Query.CardRecordPosition | baseball_card.py:65-97 | the card has 13 columns, and the last is the label of the position column |
| Query.CardOf | baseball_card.py:64-101 | a card exists exactly when the player joins a level and a team; it is the card of one such join; its position is labelled |
| Query.PlayerCard | baseball_card.py:59-101 | available exactly when the three tables exist; the card over their contents |
| Query.BySeasonDescOrder | baseball_card.py:107 | ordering by season, descending, is a total preorder |
| Query.CareerOf | baseball_card.py:103-107 | the career rows are in descending season order and are a permutation of the joined rows: each of the player's fact rows with its team, with every duplicate kept, since the query has no DISTINCT |
| Query.CareerRows | baseball_card.py:104-106 | every career row is the player's, and its teamCode is upper-case |
| Query.Career | baseball_card.py:103-113 | available exactly when the fact table and d_teams exist; the career over their contents |

## Left out

- HTTP requests, JSON decoding and the feed's URLs, including the sports path that `get_all_sports` builds from an optional sport id (stats_load.py:55-58): the payloads are the fields of `Source`, and a network failure is not modelled.
- The `pool` parameter and the other request parameters of `get_player_season_stats`: they only shape the request, which is a parameter.
- `create_conn` and the sqlite connections: the store is a value or a `Db` object, and connections are not modelled.
- `datetime.date.today()` and the run-time printout: the date is a parameter, and the elapsed-time message is left out.
- Transform.ToDate: pandas' date parsing is a parameter (`string -> Option<Date>`) applied cell by cell. `pd.to_datetime` infers one format for a whole column, which a per-cell parser cannot express. An integer cell, which pandas reads as nanoseconds since the epoch, and an object cell fail in the model.
- Transform.SplitRow: `pd.concat(..., axis=1)` can create duplicate column names when a stat field has the name of a split column. The model keeps one column per name: the stat field's cell, except for player_id, leaguelevel_id and team_id, where it keeps the id taken from the split's objects. What `to_sql` does with duplicate names is not modelled.
- Transform.SplitRow: a split that has no stat key gets, in pandas, a column 0 holding NaN, since `apply(pd.Series)` turns its missing cell into a one-element Series indexed 0. The model reads the absent key as null and gives no column. An absent column reads as null in the model, so only the table's column list differs, and that is not modelled. A stat that is null adds no column in either.
- The DataFrame index column that `to_sql` writes to the fact tables by default is not modelled, and neither is column order within a row.
- Schema changes on append (a batch with columns the table lacks makes SQLite raise): appends always succeed in the model.
- Value types beyond null, integer, text, date and object, such as floats and NaN, are not modelled. Cells are stored as given.
- Store.Apply: a batch that holds an object cell makes sqlite3 raise at `to_sql` (stats_load.py:64, 93, 110, 139), since it cannot bind a dict, and the run ends there. The model stores such a cell without complaint. The loader drops or flattens every nested column the feed is known to send (stats_load.py:83-90, 105-107, 131-138), so this only arises when the feed adds a new nested field.
- SQLite's numeric affinity is modelled for integers written in canonical decimal (optional '-', digits, leading zeros allowed). Other numeric spellings, such as '+5', ' 5' or '5.0', are not.
- Values.ValueLe: dates form a kind of their own, ordered by (year, month, day) and placed after text. SQLite stores them as ISO text and compares them with other text cells; ORDER BY columns here never mix the two. NULL, numbers and text follow SQLite's order.
- ResultSets.SortBy: rows that tie on every ORDER BY key keep an unspecified order in SQLite. The model fixes one order: tied rows come out latest first, because `Insert` places a row before the first row it ties with. The lemmas only state what SQLite promises.
- Query.TeamRecords and Query.Levels: these queries have no ORDER BY. The model returns the join order, and the contracts state only membership and distinctness.
- Query.CardOf: `fetchone()` returns an unspecified one of several matching rows. The model takes the first in join order, and the contract says only that it is the card of some matching join.
- Query.CardOf: `STRFTIME('%m/%d/%Y', ...)` formatting of the two dates is not modelled; the date cells are returned as stored.
- Values.Upper: `UPPER` is modelled on ASCII letters of text cells; other cells are returned unchanged.
- Query.PlayersOrdered: the rows are sorted by lastName, then firstName. firstName is not a column of the listing, so the contract states the lastName order only.
- Flask routing, templates, the photo folder and the index page are not modelled.
- SQL injection through the interpolated level and team is not modelled: level is a string and team a natural number, as the routes' converters give them.
