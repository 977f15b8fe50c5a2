/** Cell values and rows as they travel from the statistics feed into the
    relational store and back out of it. */
module Values {

  datatype Option<+T> = None | Some(value: T) {
    predicate IsFailure() { None? }
    function PropagateFailure<U>(): Option<U> requires None? { None }
    function Extract(): T requires Some? { value }
    function GetOr(default: T): T { if Some? then value else default }
  }

  /** A calendar date without time of day. */
  datatype Date = Date(year: int, month: int, day: int)

  /** One JSON/table cell: null (JSON null, pandas NaN or SQL NULL), an
      integer, a string, a parsed date, or a nested JSON object. */
  datatype Value = Null | Int(i: int) | Str(s: string) | Day(d: Date) | Obj(fields: map<string, Value>)

  /** A record of the feed or a row of a table: column name to cell.
      A column the row does not hold reads as null. */
  type Row = map<string, Value>

  function Get(r: Row, column: string): Value
  {
    if column in r then r[column] else Null
  }

  /** Applies a step that may fail to every element, in order; fails as soon
      as one element fails (the way one bad cell aborts a whole DataFrame
      operation). */
  function MapOpt<T, U>(xs: seq<T>, f: T -> Option<U>): (out: Option<seq<U>>)
    ensures out.Some? <==> forall i :: 0 <= i < |xs| ==> f(xs[i]).Some?
    ensures out.Some? ==> |out.value| == |xs|
    ensures out.Some? ==> forall i :: 0 <= i < |xs| ==> f(xs[i]) == Some(out.value[i])
  {
    if xs == [] then Some([])
    else
      var head :- f(xs[0]);
      var tail :- MapOpt(xs[1..], f);
      assert forall i :: 1 <= i < |xs| ==> xs[i] == xs[1..][i - 1];
      Some([head] + tail)
  }

  /** A step that agrees on two sequences element by element agrees on them as a whole. */
  lemma MapOptAgree<T, U>(xs: seq<T>, ys: seq<T>, f: T -> Option<U>)
    requires |xs| == |ys|
    requires forall i :: 0 <= i < |xs| ==> f(xs[i]) == f(ys[i])
    ensures MapOpt(xs, f) == MapOpt(ys, f)
  {
    var a, b := MapOpt(xs, f), MapOpt(ys, f);
    if a.Some? {
      assert forall i :: 0 <= i < |xs| ==> Some(a.value[i]) == Some(b.value[i]);
    }
  }

  // ---------------------------------------------------------------------
  // Decimal text, as SQLite converts between TEXT and INTEGER

  function DigitChar(d: int): char
    requires 0 <= d < 10
  {
    (d + '0' as int) as char
  }

  predicate IsDigit(c: char) { '0' <= c <= '9' }

  /** The canonical decimal spelling of a natural number. */
  function NatText(n: nat): (s: string)
    ensures |s| >= 1
    ensures forall k :: 0 <= k < |s| ==> IsDigit(s[k])
  {
    if n < 10 then [DigitChar(n)] else NatText(n / 10) + [DigitChar(n % 10)]
  }

  /** The canonical decimal spelling of an integer, with a leading '-' when negative. */
  function DecimalText(n: int): string
  {
    if n < 0 then "-" + NatText(-n) else NatText(n)
  }

  /** The value of a non-empty string of decimal digits, leading zeros allowed. */
  function ParseDigits(s: string): (n: Option<nat>)
    ensures n.Some? <==> (|s| >= 1 && forall k :: 0 <= k < |s| ==> IsDigit(s[k]))
  {
    if |s| == 0 || !IsDigit(s[|s| - 1]) then None
    else if |s| == 1 then Some(s[0] as int - '0' as int)
    else match ParseDigits(s[..|s| - 1])
      case None => None
      case Some(m) => Some(10 * m + (s[|s| - 1] as int - '0' as int))
  }

  /** The integer a TEXT cell holds when SQLite applies numeric affinity to it:
      an optional '-' followed by decimal digits. */
  function ParseInt(s: string): Option<int>
  {
    if |s| >= 1 && s[0] == '-' then
      match ParseDigits(s[1..])
      case None => None
      case Some(m) => Some(-(m as int))
    else ParseDigits(s)
  }

  lemma {:induction false} ParseNatText(n: nat)
    ensures ParseDigits(NatText(n)) == Some(n)
  {
    if n >= 10 {
      var s := NatText(n);
      assert s[..|s| - 1] == NatText(n / 10);
      ParseNatText(n / 10);
    }
  }

  /** Reading back the decimal text of an integer gives that integer. */
  lemma ParseDecimalText(n: int)
    ensures ParseInt(DecimalText(n)) == Some(n)
  {
    var s := DecimalText(n);
    if n < 0 {
      var t := NatText(-n);
      assert s == "-" + t;
      assert s[0] == '-' && s[1..] == t;
      ParseNatText(-n);
    } else {
      assert s == NatText(n);
      assert IsDigit(s[0]);
      ParseNatText(n);
    }
  }

  // ---------------------------------------------------------------------
  // SQL comparison

  /** SQL `a = b` between two column cells: NULL equals nothing; an INTEGER
      column compared with a TEXT column applies numeric affinity to the text;
      otherwise values compare as themselves. */
  predicate SqlEq(a: Value, b: Value)
    ensures SqlEq(a, b) ==> !a.Null? && !b.Null? && !a.Obj? && !b.Obj?
    ensures (a.Int? || a.Str? || a.Day?) && a == b ==> SqlEq(a, b)
    ensures a.Int? && b.Int? ==> (SqlEq(a, b) <==> a.i == b.i)
    ensures a.Str? && b.Str? ==> (SqlEq(a, b) <==> a.s == b.s)
  {
    match (a, b)
    case (Int(i), Int(j)) => i == j
    case (Str(s), Str(t)) => s == t
    case (Day(d), Day(e)) => d == e
    case (Int(i), Str(t)) => ParseInt(t) == Some(i)
    case (Str(s), Int(j)) => ParseInt(s) == Some(j)
    case _ => false
  }

  lemma SqlEqNull(a: Value)
    ensures !SqlEq(a, Null) && !SqlEq(Null, a)
  {
  }

  /** An integer key written out as its decimal text still joins with the integer key. */
  lemma SqlEqDecimalText(n: int)
    ensures SqlEq(Int(n), Str(DecimalText(n))) && SqlEq(Str(DecimalText(n)), Int(n))
  {
    ParseDecimalText(n);
  }

  // ---------------------------------------------------------------------
  // SQL ordering: NULL first, then numbers, then text (by code point)

  function Rank(v: Value): nat
  {
    match v
    case Null => 0
    case Int(_) => 1
    case Str(_) => 2
    case Day(_) => 3
    case Obj(_) => 4
  }

  /** Lexicographic order on strings by character code. */
  predicate StrLe(a: string, b: string)
  {
    a == [] || (b != [] && (a[0] < b[0] || (a[0] == b[0] && StrLe(a[1..], b[1..]))))
  }

  predicate DateLe(d: Date, e: Date)
  {
    d.year < e.year || (d.year == e.year && (d.month < e.month || (d.month == e.month && d.day <= e.day)))
  }

  /** The order ORDER BY uses on one column. */
  predicate ValueLe(a: Value, b: Value)
  {
    if Rank(a) != Rank(b) then Rank(a) < Rank(b)
    else match (a, b)
      case (Int(i), Int(j)) => i <= j
      case (Str(s), Str(t)) => StrLe(s, t)
      case (Day(d), Day(e)) => DateLe(d, e)
      case _ => true
  }

  lemma {:induction false} StrLeTotal(a: string, b: string)
    ensures StrLe(a, b) || StrLe(b, a)
  {
    if a != [] && b != [] && a[0] == b[0] {
      StrLeTotal(a[1..], b[1..]);
    }
  }

  lemma {:induction false} StrLeTrans(a: string, b: string, c: string)
    requires StrLe(a, b) && StrLe(b, c)
    ensures StrLe(a, c)
  {
    if a != [] && b != [] && c != [] && a[0] == b[0] && b[0] == c[0] {
      StrLeTrans(a[1..], b[1..], c[1..]);
    }
  }

  lemma ValueLeTotal(a: Value, b: Value)
    ensures ValueLe(a, b) || ValueLe(b, a)
  {
    if a.Str? && b.Str? {
      StrLeTotal(a.s, b.s);
    }
  }

  lemma ValueLeTrans(a: Value, b: Value, c: Value)
    requires ValueLe(a, b) && ValueLe(b, c)
    ensures ValueLe(a, c)
  {
    if a.Str? && b.Str? && c.Str? {
      StrLeTrans(a.s, b.s, c.s);
    }
  }

  // ---------------------------------------------------------------------
  // SQL UPPER

  function UpperChar(c: char): (u: char)
  {
    if 'a' <= c <= 'z' then (c as int - 'a' as int + 'A' as int) as char else c
  }

  /** SQLite's UPPER: ASCII letters only. */
  function UpperText(s: string): (u: string)
    ensures |u| == |s|
    ensures forall k :: 0 <= k < |s| ==> !('a' <= u[k] <= 'z')
    ensures forall k :: 0 <= k < |s| ==> (if 'a' <= s[k] <= 'z' then u[k] as int == s[k] as int - 32 else u[k] == s[k])
  {
    seq(|s|, k requires 0 <= k < |s| => UpperChar(s[k]))
  }

  /** UPPER applied to a cell: NULL stays NULL, text is upper-cased, anything else is kept. */
  function Upper(v: Value): Value
  {
    if v.Str? then Str(UpperText(v.s)) else v
  }

  lemma UpperIdempotent(v: Value)
    ensures Upper(Upper(v)) == Upper(v)
  {
    if v.Str? {
      var u := UpperText(v.s);
      assert UpperText(u) == u;
    }
  }
}
