/** Rows, relations and the sequence operations the sources and the joins are built from. */
module Relations {
  import opened Outcomes

  datatype DataType =
    | Boolean
    | Integer(width: nat, signed: bool)
    | Float(width: nat)
    | Utf8
    | LargeUtf8
    | Date(width: nat)
    | Timestamp
    | Decimal128(precision: nat, scale: nat)
      /** A Postgres NUMERIC as its driver reports it: text of whatever scale each value prints. */
    | Numeric
    | OtherType(name: string)

  datatype Value = Null | Int(i: int) | Str(s: string) | Bool(b: bool) | Dec(v: real)

  type Row = seq<Value>

  datatype Field = Field(name: string, dtype: DataType)

  datatype Table = Table(schema: seq<Field>, rows: seq<Row>)

  /** Position of the first field called `name`. */
  function IndexOf(schema: seq<Field>, name: string): (i: Option<nat>)
    ensures i.Some? ==> i.value < |schema| && schema[i.value].name == name
    ensures i.Some? <==> exists k :: 0 <= k < |schema| && schema[k].name == name
  {
    if schema == [] then None
    else if schema[0].name == name then Some(0)
    else
      match IndexOf(schema[1..], name)
      case None => None
      case Some(k) => assert schema[1..][k] == schema[k + 1]; Some(k + 1)
  }

  /** The value of column `name` in `row`; NULL when the row is too short to have it. */
  function Cell(schema: seq<Field>, row: Row, name: string): Value {
    match IndexOf(schema, name)
    case None => Null
    case Some(k) => if k < |row| then row[k] else Null
  }

  predicate HasColumns(schema: seq<Field>, names: seq<string>) {
    forall k :: 0 <= k < |names| ==> IndexOf(schema, names[k]).Some?
  }

  function Filter<T>(keep: T -> bool, s: seq<T>): seq<T> {
    if s == [] then []
    else (if keep(s[0]) then [s[0]] else []) + Filter(keep, s[1..])
  }

  function Map<T, U>(f: T -> U, s: seq<T>): (mapped: seq<U>)
    ensures |mapped| == |s|
    ensures forall k :: 0 <= k < |s| ==> mapped[k] == f(s[k])
  {
    seq(|s|, k requires 0 <= k < |s| => f(s[k]))
  }

  /** Duplicate elimination that keeps first occurrences. */
  function Distinct<T(==, !new)>(s: seq<T>): (d: seq<T>)
    ensures forall x :: x in d <==> x in s
    ensures forall i, j :: 0 <= i < j < |d| ==> d[i] != d[j]
  {
    if s == [] then []
    else
      var init := Distinct(s[..|s| - 1]);
      var last := s[|s| - 1];
      assert s == s[..|s| - 1] + [last];
      if last in init then init else init + [last]
  }

  lemma {:induction false} FilterAppend<T>(keep: T -> bool, a: seq<T>, b: seq<T>)
    ensures Filter(keep, a + b) == Filter(keep, a) + Filter(keep, b)
  {
    if a == [] {
      assert a + b == b;
    } else {
      FilterAppend(keep, a[1..], b);
      assert (a + b)[0] == a[0] && (a + b)[1..] == a[1..] + b;
      var head := if keep(a[0]) then [a[0]] else [];
      assert head + (Filter(keep, a[1..]) + Filter(keep, b)) == head + Filter(keep, a[1..]) + Filter(keep, b);
    }
  }

  /** Two filters that agree on the elements of a sequence keep the same part of it. */
  lemma {:induction false} FilterCongruence<T>(p: T -> bool, q: T -> bool, s: seq<T>)
    requires forall k :: 0 <= k < |s| ==> p(s[k]) == q(s[k])
    ensures Filter(p, s) == Filter(q, s)
  {
    if s != [] {
      FilterCongruence(p, q, s[1..]);
    }
  }

  /** Filtering twice keeps what passes both filters. */
  lemma {:induction false} FilterTwice<T>(p: T -> bool, q: T -> bool, s: seq<T>)
    ensures Filter(p, Filter(q, s)) == Filter((x: T) => q(x) && p(x), s)
  {
    if s != [] {
      FilterTwice(p, q, s[1..]);
      FilterAppend(p, if q(s[0]) then [s[0]] else [], Filter(q, s[1..]));
    }
  }

  /** How often a filter keeps each element. */
  lemma {:induction false} FilterCount<T>(keep: T -> bool, s: seq<T>, x: T)
    ensures multiset(Filter(keep, s))[x] == if keep(x) then multiset(s)[x] else 0
  {
    if s != [] {
      FilterCount(keep, s[1..], x);
      assert s == [s[0]] + s[1..];
    }
  }

  lemma {:induction false} MapAppend<T, U>(f: T -> U, a: seq<T>, b: seq<T>)
    ensures Map(f, a + b) == Map(f, a) + Map(f, b)
  {
  }

  lemma {:induction false} FilterIsPart<T>(keep: T -> bool, s: seq<T>)
    ensures multiset(Filter(keep, s)) <= multiset(s)
  {
    if s != [] {
      FilterIsPart(keep, s[1..]);
      assert s == [s[0]] + s[1..];
    }
  }

  /** Filtering anything between what a filter keeps and the whole keeps the same multiset. */
  lemma {:induction false} FilterBetween<T(!new)>(keep: T -> bool, base: seq<T>, some: seq<T>)
    requires multiset(Filter(keep, base)) <= multiset(some) <= multiset(base)
    ensures multiset(Filter(keep, some)) == multiset(Filter(keep, base))
  {
    forall x ensures multiset(Filter(keep, some))[x] == multiset(Filter(keep, base))[x] {
      FilterCount(keep, some, x);
      FilterCount(keep, base, x);
    }
    assert multiset(Filter(keep, some)) == multiset(Filter(keep, base));
  }

  lemma {:induction false} FilterNothing<T>(keep: T -> bool, s: seq<T>)
    requires forall k :: 0 <= k < |s| ==> !keep(s[k])
    ensures Filter(keep, s) == []
  {
    if s != [] {
      FilterNothing(keep, s[1..]);
    }
  }

  lemma {:induction false} FilterEverything<T>(keep: T -> bool, s: seq<T>)
    requires forall k :: 0 <= k < |s| ==> keep(s[k])
    ensures Filter(keep, s) == s
  {
    if s != [] {
      FilterEverything(keep, s[1..]);
    }
  }
}
