/** The result-set operators the read-side queries of baseball_card.py use:
    ORDER BY (a sort under a total preorder on rows), SELECT DISTINCT (the
    first occurrence of each row) and cross products for inner joins. */
module ResultSets {
  import opened Values

  // ---------------------------------------------------------------------
  // Orders

  /** ORDER BY k1 ASC, k2 ASC, ...: a precedes-or-ties b. */
  predicate LexLe(a: seq<Value>, b: seq<Value>)
  {
    a == [] || (b != [] && ValueLe(a[0], b[0]) && (ValueLe(b[0], a[0]) ==> LexLe(a[1..], b[1..])))
  }

  lemma {:induction false} LexLeTotal(a: seq<Value>, b: seq<Value>)
    requires |a| == |b|
    ensures LexLe(a, b) || LexLe(b, a)
  {
    if a != [] {
      ValueLeTotal(a[0], b[0]);
      LexLeTotal(a[1..], b[1..]);
    }
  }

  lemma {:induction false} LexLeTrans(a: seq<Value>, b: seq<Value>, c: seq<Value>)
    requires LexLe(a, b) && LexLe(b, c)
    ensures LexLe(a, c)
  {
    if a != [] {
      ValueLeTrans(a[0], b[0], c[0]);
      if ValueLe(c[0], a[0]) {
        ValueLeTrans(c[0], a[0], b[0]);
        ValueLeTrans(b[0], c[0], a[0]);
        LexLeTrans(a[1..], b[1..], c[1..]);
      }
    }
  }

  /** A comparison every pair of elements is ordered by, consistently. */
  ghost predicate TotalPreorder<T(!new)>(le: (T, T) -> bool)
  {
    && (forall a, b :: le(a, b) || le(b, a))
    && (forall a, b, c :: le(a, b) && le(b, c) ==> le(a, c))
  }

  predicate SortedBy<T>(s: seq<T>, le: (T, T) -> bool)
  {
    forall i, j :: 0 <= i < j < |s| ==> le(s[i], s[j])
  }

  // ---------------------------------------------------------------------
  // ORDER BY

  /** Inserts x in front of the first element it precedes. */
  function Insert<T>(x: T, s: seq<T>, le: (T, T) -> bool): (r: seq<T>)
    ensures multiset(r) == multiset(s) + multiset{x}
  {
    if s == [] then [x]
    else if le(x, s[0]) then [x] + s
    else
      assert s == [s[0]] + s[1..];
      [s[0]] + Insert(x, s[1..], le)
  }

  /** Inserting into a sorted sequence keeps it sorted. */
  lemma {:induction false} InsertSorted<T(!new)>(x: T, s: seq<T>, le: (T, T) -> bool)
    requires TotalPreorder(le) && SortedBy(s, le)
    ensures SortedBy(Insert(x, s, le), le)
  {
    if s != [] {
      if le(x, s[0]) {
        assert forall j :: 0 <= j < |s| ==> le(s[0], s[j]);
      } else {
        var tail := s[1..];
        InsertSorted(x, tail, le);
        var rest := Insert(x, tail, le);
        forall j | 0 <= j < |rest|
          ensures le(s[0], rest[j])
        {
          assert rest[j] in multiset(rest);
          if rest[j] != x {
            assert rest[j] in multiset(tail);
            var k :| 0 <= k < |tail| && tail[k] == rest[j];
            assert s[k + 1] == rest[j];
          }
        }
      }
    }
  }

  /** ORDER BY: the rows, rearranged so that each precedes-or-ties the next. */
  function SortBy<T(!new)>(s: seq<T>, le: (T, T) -> bool): (r: seq<T>)
    requires TotalPreorder(le)
    ensures multiset(r) == multiset(s)
    ensures SortedBy(r, le)
  {
    if s == [] then []
    else
      assert s == s[..|s| - 1] + [s[|s| - 1]];
      var sorted := SortBy(s[..|s| - 1], le);
      InsertSorted(s[|s| - 1], sorted, le);
      Insert(s[|s| - 1], sorted, le)
  }

  // ---------------------------------------------------------------------
  // SELECT DISTINCT

  predicate NoDuplicates<T(==)>(s: seq<T>)
  {
    forall i, j :: 0 <= i < j < |s| ==> s[i] != s[j]
  }

  /** SELECT DISTINCT: each row once, at its first occurrence. */
  function Dedup<T(==,!new)>(s: seq<T>): (r: seq<T>)
    ensures forall x :: x in r <==> x in s
    ensures NoDuplicates(r)
  {
    if s == [] then []
    else
      var d := Dedup(s[..|s| - 1]);
      assert forall x :: x in s <==> x in s[..|s| - 1] || x == s[|s| - 1];
      if s[|s| - 1] in d then d else d + [s[|s| - 1]]
  }

  /** Removing duplicates from a sorted result keeps it sorted. */
  lemma {:induction false} DedupSorted<T(!new)>(s: seq<T>, le: (T, T) -> bool)
    requires SortedBy(s, le)
    ensures SortedBy(Dedup(s), le)
  {
    if s != [] {
      var init := s[..|s| - 1];
      var last := s[|s| - 1];
      assert SortedBy(init, le);
      DedupSorted(init, le);
      var d := Dedup(init);
      if last !in d {
        forall i | 0 <= i < |d|
          ensures le(d[i], last)
        {
          assert d[i] in init;
          var k :| 0 <= k < |init| && init[k] == d[i];
          assert s[k] == d[i];
        }
      }
    }
  }

  /** A result without duplicates is left as it is. */
  lemma {:induction false} DedupNoDuplicates<T(!new)>(s: seq<T>)
    requires NoDuplicates(s)
    ensures Dedup(s) == s
  {
    if s != [] {
      var init := s[..|s| - 1];
      assert NoDuplicates(init);
      DedupNoDuplicates(init);
      assert s[|s| - 1] !in init;
      assert init + [s[|s| - 1]] == s;
    }
  }

  /** SELECT DISTINCT twice is SELECT DISTINCT once. */
  lemma DedupIdempotent<T(!new)>(s: seq<T>)
    ensures Dedup(Dedup(s)) == Dedup(s)
  {
    DedupNoDuplicates(Dedup(s));
  }

  // ---------------------------------------------------------------------
  // Inner joins

  lemma MulStep(n: int, m: int)
    ensures n * m == (n - 1) * m + m
  {
  }

  lemma {:induction false} MulMono(a: int, b: int, m: int)
    requires 0 <= a <= b && 0 <= m
    ensures a * m <= b * m
    decreases b - a
  {
    if a < b {
      MulMono(a, b - 1, m);
      MulStep(b, m);
    }
  }

  /** Position i * m + j of the pairs of n rows with m rows lies among them,
      and before the last m of them unless i is the last row. */
  lemma {:induction false} PairIndex(i: int, j: int, n: int, m: int)
    requires 0 <= i < n && 0 <= j < m
    ensures 0 <= i * m + j < n * m
    ensures i < n - 1 ==> i * m + j < (n - 1) * m
  {
    MulStep(n, m);
    MulMono(0, i, m);
    MulMono(i, n - 1, m);
    if i < n - 1 {
      MulStep(i + 1, m);
      MulMono(i + 1, n - 1, m);
    }
  }

  /** r holds the pairs of xs and ys, xs outermost: the pair of xs[i] and
      ys[j] is at position i * |ys| + j. */
  ghost predicate PairsLaidOut<A, B>(r: seq<(A, B)>, xs: seq<A>, ys: seq<B>)
  {
    |r| == |xs| * |ys| && PairsAt(r, xs, ys)
  }

  ghost predicate PairsAt<A, B>(r: seq<(A, B)>, xs: seq<A>, ys: seq<B>)
  {
    forall i, j :: 0 <= i < |xs| && 0 <= j < |ys| ==>
      0 <= i * |ys| + j < |r| && r[i * |ys| + j] == (xs[i], ys[j])
  }

  /** One position of the pairs of xs with ys, built as the pairs of all but
      the last element of xs followed by the pairs of the last one. */
  lemma {:induction false} PairsAtStep<A, B>(init: seq<(A, B)>, row: seq<(A, B)>, xs: seq<A>, ys: seq<B>, i: int, j: int)
    requires xs != [] && PairsLaidOut(init, xs[..|xs| - 1], ys)
    requires |row| == |ys| && forall j :: 0 <= j < |ys| ==> row[j] == (xs[|xs| - 1], ys[j])
    requires 0 <= i < |xs| && 0 <= j < |ys|
    ensures 0 <= i * |ys| + j < |init + row| && (init + row)[i * |ys| + j] == (xs[i], ys[j])
  {
    var n, m, k := |xs|, |ys|, i * |ys| + j;
    assert |init| == (n - 1) * m;
    PairIndex(i, j, n, m);
    MulStep(n, m);
    if i < n - 1 {
      assert xs[..n - 1][i] == xs[i];
      assert init[k] == (xs[i], ys[j]);
    } else {
      assert k == |init| + j;
    }
  }

  /** The pairs of xs[..|xs| - 1] with ys, followed by the pairs of the last
      element of xs with ys, are the pairs of xs with ys. */
  lemma {:induction false} PairsLaidOutStep<A, B>(init: seq<(A, B)>, row: seq<(A, B)>, xs: seq<A>, ys: seq<B>)
    requires xs != [] && PairsLaidOut(init, xs[..|xs| - 1], ys)
    requires |row| == |ys| && forall j :: 0 <= j < |ys| ==> row[j] == (xs[|xs| - 1], ys[j])
    ensures PairsLaidOut(init + row, xs, ys)
  {
    MulStep(|xs|, |ys|);
    PairsAtAll(init, row, xs, ys);
  }

  lemma PairsAtAll<A, B>(init: seq<(A, B)>, row: seq<(A, B)>, xs: seq<A>, ys: seq<B>)
    requires xs != [] && PairsLaidOut(init, xs[..|xs| - 1], ys)
    requires |row| == |ys| && forall j :: 0 <= j < |ys| ==> row[j] == (xs[|xs| - 1], ys[j])
    ensures PairsAt(init + row, xs, ys)
  {
    forall i, j | 0 <= i < |xs| && 0 <= j < |ys|
      ensures 0 <= i * |ys| + j < |init + row| && (init + row)[i * |ys| + j] == (xs[i], ys[j])
    {
      PairsAtStep(init, row, xs, ys, i, j);
    }
  }

  /** Every pair of an element of xs and an element of ys, xs outermost. */
  function Pairs<A(!new), B(!new)>(xs: seq<A>, ys: seq<B>): (r: seq<(A, B)>)
    ensures PairsLaidOut(r, xs, ys)
    ensures forall x: (A, B) :: x in r <==> x.0 in xs && x.1 in ys
  {
    if xs == [] then []
    else
      var init := Pairs(xs[..|xs| - 1], ys);
      var row := seq(|ys|, j requires 0 <= j < |ys| => (xs[|xs| - 1], ys[j]));
      assert forall j :: 0 <= j < |ys| ==> row[j] == (xs[|xs| - 1], ys[j]);
      assert forall a :: a in xs <==> a in xs[..|xs| - 1] || a == xs[|xs| - 1];
      PairsLaidOutStep(init, row, xs, ys);
      init + row
  }

  /** A select list applied to every row, in order. */
  function Select<T, U>(s: seq<T>, f: T -> U): (r: seq<U>)
    ensures |r| == |s| && forall i :: 0 <= i < |s| ==> r[i] == f(s[i])
  {
    seq(|s|, i requires 0 <= i < |s| => f(s[i]))
  }

  /** The elements that satisfy the condition, in order, each kept element as
      often as it occurs. */
  function Filter<T(!new)>(s: seq<T>, keep: T -> bool): (r: seq<T>)
    ensures forall x :: multiset(r)[x] == if keep(x) then multiset(s)[x] else 0
    ensures forall x :: x in r <==> x in s && keep(x)
  {
    if s == [] then []
    else
      var init := Filter(s[..|s| - 1], keep);
      assert s == s[..|s| - 1] + [s[|s| - 1]];
      assert forall x :: x in s <==> x in s[..|s| - 1] || x == s[|s| - 1];
      if keep(s[|s| - 1]) then init + [s[|s| - 1]] else init
  }

  // ---------------------------------------------------------------------
  // Membership through a whole query

  /** A sorted result holds the rows it sorted. */
  lemma SortByMembers<T(!new)>(s: seq<T>, le: (T, T) -> bool)
    requires TotalPreorder(le)
    ensures forall x :: x in SortBy(s, le) <==> x in s
  {
    var r := SortBy(s, le);
    assert forall x :: x in r <==> x in multiset(r);
    assert forall x :: x in s <==> x in multiset(s);
  }

  /** A row is selected from the rows exactly when some row maps to it. */
  lemma SelectMembers<T, U>(s: seq<T>, f: T -> U, u: U)
    ensures u in Select(s, f) <==> exists x :: x in s && u == f(x)
  {
    if exists x :: x in s && u == f(x) {
      var x :| x in s && u == f(x);
      var i :| 0 <= i < |s| && s[i] == x;
      assert Select(s, f)[i] == u;
    }
  }

  /** SELECT DISTINCT f(x, y) FROM xs, ys WHERE keep(x, y), in any order:
      a row is in the result exactly when some joined pair that is kept maps to it. */
  lemma JoinMembers<A(!new), B(!new), U(!new)>(xs: seq<A>, ys: seq<B>, keep: ((A, B)) -> bool, f: ((A, B)) -> U, u: U)
    ensures u in Select(Filter(Pairs(xs, ys), keep), f) <==> exists x: (A, B) :: x.0 in xs && x.1 in ys && keep(x) && u == f(x)
  {
    SelectMembers(Filter(Pairs(xs, ys), keep), f, u);
  }
}
