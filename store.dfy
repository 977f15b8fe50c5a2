/** The relational store the loader writes: named tables of rows, written
    with pandas' `to_sql` in replace or append mode, listed and dropped by the
    database-management helpers of stats_load.py. */
module Store {
  import opened Values

  type Tables = map<string, seq<Row>>

  /** One `to_sql` write of a transformed DataFrame. */
  datatype Op = Replace(name: string, rows: seq<Row>) | Append(name: string, rows: seq<Row>)

  /** The rows of a table; a table that does not exist has none. */
  function Rows(t: Tables, name: string): seq<Row>
  {
    if name in t then t[name] else []
  }

  /** The store after one write: replace mode overwrites the table, append
      mode adds the rows after the existing ones (creating the table when it
      does not exist); no other table changes. */
  function Apply(t: Tables, op: Op): (r: Tables)
  {
    match op
    case Replace(n, rows) => t[n := rows]
    case Append(n, rows) => t[n := Rows(t, n) + rows]
  }

  /** The store after a sequence of writes, in order. */
  function ApplyAll(t: Tables, ops: seq<Op>): Tables
  {
    if ops == [] then t else Apply(ApplyAll(t, ops[..|ops| - 1]), ops[|ops| - 1])
  }

  predicate Distinct(names: seq<string>)
  {
    forall i, j :: 0 <= i < j < |names| ==> names[i] != names[j]
  }

  /** A write creates its table and changes no other table. */
  lemma ApplyFrame(t: Tables, op: Op)
    ensures Apply(t, op).Keys == t.Keys + {op.name}
    ensures forall n :: n != op.name ==> Rows(Apply(t, op), n) == Rows(t, n)
  {
  }

  /** Replace mode: loading a table twice leaves only the second batch, and
      the table holds exactly the batch, however often it was loaded before. */
  lemma ReplaceTwice(t: Tables, name: string, first: seq<Row>, second: seq<Row>)
    ensures Apply(Apply(t, Replace(name, first)), Replace(name, second)) == Apply(t, Replace(name, second))
    ensures Rows(Apply(Apply(t, Replace(name, first)), Replace(name, second)), name) == second
  {
    assert Apply(t, Replace(name, first))[name := second] == t[name := second];
  }

  /** Append mode: the table keeps its rows and gains the batch after them. */
  lemma AppendCount(t: Tables, name: string, rows: seq<Row>)
    ensures |Rows(Apply(t, Append(name, rows)), name)| == |Rows(t, name)| + |rows|
    ensures Rows(Apply(t, Append(name, rows)), name)[..|Rows(t, name)|] == Rows(t, name)
  {
  }

  /** Two batches of writes one after the other are the writes of both batches. */
  lemma {:induction false} ApplyAllConcat(t: Tables, first: seq<Op>, second: seq<Op>)
    ensures ApplyAll(ApplyAll(t, first), second) == ApplyAll(t, first + second)
  {
    if second != [] {
      var init := second[..|second| - 1];
      var all := first + second;
      assert all[..|all| - 1] == first + init;
      assert all[|all| - 1] == second[|second| - 1];
      ApplyAllConcat(t, first, init);
    } else {
      assert first + second == first;
    }
  }

  lemma ApplyAllOne(t: Tables, op: Op)
    ensures ApplyAll(t, [op]) == Apply(t, op)
  {
    assert [op][..0] == [];
  }

  /** A table that no write of the batch names keeps its rows. */
  lemma {:induction false} ApplyAllUntouched(t: Tables, ops: seq<Op>, name: string)
    requires forall k :: 0 <= k < |ops| ==> ops[k].name != name
    ensures Rows(ApplyAll(t, ops), name) == Rows(t, name)
  {
    if ops != [] {
      ApplyAllUntouched(t, ops[..|ops| - 1], name);
      ApplyFrame(ApplyAll(t, ops[..|ops| - 1]), ops[|ops| - 1]);
    }
  }

  /** Two tables replaced by the first two writes and not written afterwards
      hold what replaced them. */
  lemma ReplacedFirst(t: Tables, ops: seq<Op>)
    requires |ops| >= 2 && ops[0].Replace? && ops[1].Replace? && ops[0].name != ops[1].name
    requires forall k :: 0 <= k < |ops[2..]| ==> ops[2..][k].name != ops[0].name && ops[2..][k].name != ops[1].name
    ensures Rows(ApplyAll(t, ops), ops[0].name) == ops[0].rows
    ensures Rows(ApplyAll(t, ops), ops[1].name) == ops[1].rows
  {
    var head, rest := ops[..2], ops[2..];
    assert ops == head + rest;
    ApplyAllConcat(t, head, rest);
    assert head[..1] == [ops[0]];
    ApplyAllOne(t, ops[0]);
    ApplyAllUntouched(ApplyAll(t, head), rest, ops[0].name);
    ApplyAllUntouched(ApplyAll(t, head), rest, ops[1].name);
  }

  /** The rows a batch of writes appends to one table, in order. */
  function AppendedRows(ops: seq<Op>, name: string): seq<Row>
  {
    if ops == [] then []
    else
      var last := ops[|ops| - 1];
      AppendedRows(ops[..|ops| - 1], name) + (if last.Append? && last.name == name then last.rows else [])
  }

  /** The rows two batches append to a table: the first batch's, then the second's. */
  lemma {:induction false} AppendedRowsConcat(first: seq<Op>, second: seq<Op>, name: string)
    ensures AppendedRows(first + second, name) == AppendedRows(first, name) + AppendedRows(second, name)
  {
    if second == [] {
      assert first + second == first;
    } else {
      var init := second[..|second| - 1];
      var last := second[|second| - 1];
      var all := first + second;
      assert all[..|all| - 1] == first + init;
      assert all[|all| - 1] == last;
      var extra := if last.Append? && last.name == name then last.rows else [];
      assert AppendedRows(all, name) == AppendedRows(first + init, name) + extra;
      assert AppendedRows(second, name) == AppendedRows(init, name) + extra;
      AppendedRowsConcat(first, init, name);
    }
  }

  /** A batch that never names a table appends nothing to it. */
  lemma {:induction false} AppendedRowsNone(ops: seq<Op>, name: string)
    requires forall k :: 0 <= k < |ops| ==> ops[k].name != name
    ensures AppendedRows(ops, name) == []
  {
    if ops != [] {
      AppendedRowsNone(ops[..|ops| - 1], name);
    }
  }

  /** Writes to other tables around a batch append nothing to the table. */
  lemma AppendedRowsOnly(head: seq<Op>, mid: seq<Op>, tail: seq<Op>, name: string)
    requires forall k :: 0 <= k < |head| ==> head[k].name != name
    requires forall k :: 0 <= k < |tail| ==> tail[k].name != name
    ensures AppendedRows(head + mid + tail, name) == AppendedRows(mid, name)
  {
    AppendedRowsConcat(head + mid, tail, name);
    AppendedRowsConcat(head, mid, name);
    AppendedRowsNone(head, name);
    AppendedRowsNone(tail, name);
  }

  /** Writes to other tables around a batch, within one run of writes, append
      nothing to the table. */
  lemma AppendedRowsWithin(ops: seq<Op>, n: nat, mid: seq<Op>, tail: seq<Op>, name: string)
    requires n <= |ops| && ops[n..] == mid + tail
    requires forall k :: 0 <= k < n ==> ops[k].name != name
    requires forall k :: 0 <= k < |tail| ==> tail[k].name != name
    ensures AppendedRows(ops, name) == AppendedRows(mid, name)
  {
    assert ops == ops[..n] + mid + tail;
    AppendedRowsOnly(ops[..n], mid, tail, name);
  }

  /** A table no write names keeps its rows; a table only appended to ends
      with its earlier rows followed by every appended batch. */
  lemma {:induction false} ApplyAllAppends(t: Tables, ops: seq<Op>, name: string)
    requires forall k :: 0 <= k < |ops| && ops[k].name == name ==> ops[k].Append?
    ensures Rows(ApplyAll(t, ops), name) == Rows(t, name) + AppendedRows(ops, name)
    ensures |Rows(ApplyAll(t, ops), name)| == |Rows(t, name)| + |AppendedRows(ops, name)|
  {
    if ops != [] {
      var init := ops[..|ops| - 1];
      var last := ops[|ops| - 1];
      ApplyAllAppends(t, init, name);
      ApplyFrame(ApplyAll(t, init), last);
      assert ApplyAll(t, ops) == Apply(ApplyAll(t, init), last);
      assert AppendedRows(ops, name) == AppendedRows(init, name) + (if last.Append? && last.name == name then last.rows else []);
    }
  }

  /** The relational store as one mutable object. */
  class Db {
    var tables: Tables

    constructor (initial: Tables)
      ensures tables == initial
    {
      tables := initial;
    }

    /** `to_sql(name, if_exists='replace')`. */
    method Replace(name: string, rows: seq<Row>)
      modifies this
      ensures tables == Apply(old(tables), Op.Replace(name, rows))
      ensures Rows(tables, name) == rows
    {
      tables := tables[name := rows];
    }

    /** `to_sql(name, if_exists='append')`. */
    method Append(name: string, rows: seq<Row>)
      modifies this
      ensures tables == Apply(old(tables), Op.Append(name, rows))
      ensures Rows(tables, name) == Rows(old(tables), name) + rows
    {
      tables := tables[name := Rows(tables, name) + rows];
    }

    /** `drop table name`; fails, changing nothing, when there is no such table. */
    method Drop(name: string) returns (ok: bool)
      modifies this
      ensures ok == (name in old(tables))
      ensures tables == old(tables) - {name}
    {
      ok := name in tables;
      tables := tables - {name};
    }
  }

  /** get_tables: the name of every table, each once. */
  method GetTables(db: Db) returns (names: seq<string>)
    ensures Distinct(names)
    ensures forall n :: n in names <==> n in db.tables
  {
    names := [];
    var rest := db.tables.Keys;
    while rest != {}
      invariant rest <= db.tables.Keys
      invariant forall n :: n in names ==> n in db.tables && n !in rest
      invariant forall n :: n in db.tables ==> n in names || n in rest
      invariant Distinct(names)
      decreases |rest|
    {
      var n :| n in rest;
      names := names + [n];
      rest := rest - {n};
    }
  }

  /** `drop_data(db, get_tables(db))`: every table is dropped, so the store is empty. */
  method ClearStore(db: Db) returns (ok: bool)
    modifies db
    ensures ok && db.tables == map[]
  {
    var names := GetTables(db);
    ghost var before := db.tables;
    ok := DropData(db, names);
    assert (set n | n in names) == before.Keys;
  }

  /** The first i names of a drop list. */
  function DroppedFirst(names: seq<string>, i: nat): set<string>
    requires i <= |names|
  {
    set k | 0 <= k < i :: names[k]
  }

  /** Every listed table can be dropped in turn: the names are distinct and name tables of t. */
  predicate Droppable(t: Tables, names: seq<string>)
  {
    Distinct(names) && forall n :: n in names ==> n in t
  }

  /** drop_data: drops the listed tables in order and stops at the first
      drop that fails (a table that does not exist, or one listed twice).
      Each drop commits on its own, so the tables dropped before the failing
      name stay dropped. */
  method DropData(db: Db, names: seq<string>) returns (ok: bool)
    modifies db
    ensures ok <==> Droppable(old(db.tables), names)
    ensures ok ==> db.tables == old(db.tables) - set n | n in names
    ensures !ok ==> exists i ::
      && 0 <= i < |names|
      && Droppable(old(db.tables), names[..i])
      && !Droppable(old(db.tables), names[..i + 1])
      && db.tables == old(db.tables) - DroppedFirst(names, i)
  {
    ok := true;
    var i := 0;
    while i < |names| && ok
      invariant 0 <= i <= |names|
      invariant ok ==> Droppable(old(db.tables), names[..i])
      invariant ok ==> db.tables == old(db.tables) - DroppedFirst(names, i)
      invariant !ok ==> 0 < i && Droppable(old(db.tables), names[..i - 1]) && !Droppable(old(db.tables), names[..i])
      invariant !ok ==> db.tables == old(db.tables) - DroppedFirst(names, i - 1)
    {
      ghost var before := db.tables;
      ok := db.Drop(names[i]);
      if !ok {
        assert names[i] !in old(db.tables) || names[i] in DroppedFirst(names, i);
        assert names[..i + 1][i] == names[i];
        if names[i] in DroppedFirst(names, i) {
          var k :| 0 <= k < i && names[k] == names[i];
          assert names[..i + 1][k] == names[i];
        }
        assert db.tables == before;
      } else {
        assert names[..i + 1] == names[..i] + [names[i]];
        assert DroppedFirst(names, i + 1) == DroppedFirst(names, i) + {names[i]};
      }
      i := i + 1;
    }
    if ok {
      assert names[..i] == names;
      assert DroppedFirst(names, i) == set n | n in names;
    } else {
      assert 0 <= i - 1 < |names| && names[..i - 1 + 1] == names[..i];
    }
  }
}
