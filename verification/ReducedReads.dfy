/** When reading less of a Postgres relation shows: its NUMERIC columns are typed by the values each read finds. */
module ReducedReads {
  import opened Outcomes
  import opened Ir
  import opened Relations
  import opened Partition
  import opened Sources
  import opened Typing
  import opened Injection
  import opened InjectionProofs
  import opened ScanModifiers
  import D = Decimals

  predicate DistinctColumns(schema: seq<Field>) {
    forall i, j :: 0 <= i < j < |schema| ==> schema[i].name != schema[j].name
  }

  /** A NUMERIC is NULL, or a value that its digits print exactly. */
  ghost predicate Prints(t: Tuple, i: nat) {
    match ValueAt(t, i)
    case Null => true
    case Dec(x) => ValueOf(Unscaled(x, DigitsAt(t, i)), DigitsAt(t, i)) == x
    case _ => false
  }

  /** Full rows under distinct column names, whose NUMERICs print their values. */
  ghost predicate Printed(s: Stored) {
    && DistinctColumns(s.schema)
    && forall k :: 0 <= k < |s.heap| ==>
         && |s.heap[k].row| == |s.schema|
         && forall i: nat :: i < |s.schema| && s.schema[i].dtype == Numeric ==> Prints(s.heap[k], i)
  }

  lemma {:induction false} IndexDistinct(schema: seq<Field>, i: nat)
    requires DistinctColumns(schema) && i < |schema|
    ensures IndexOf(schema, schema[i].name) == Some(i)
  {
    var k := IndexOf(schema, schema[i].name).value;
    assert schema[k].name == schema[i].name;
  }

  // --- one value ------------------------------------------------------------------------------------------

  lemma {:induction false} SameUnscaled(a: int, b: int, scale: nat)
    requires ValueOf(a, scale) == ValueOf(b, scale)
    ensures a == b
  {
    var p := D.Pow10(scale) as real;
    assert ValueOf(a, scale) * p == a as real && ValueOf(b, scale) * p == b as real;
  }

  /** Rounding what is divisible is dividing it. */
  lemma {:induction false} RoundsExactly(u: int, p: nat)
    requires p > 0
    ensures D.RoundDiv(u * p, p) == u
  {
    var a := D.Abs(u);
    assert D.Abs(u * p) == a * p by {
      if u < 0 {
        assert (-u) * p == -(u * p) && u * p <= 0;
      } else {
        assert u * p >= 0;
      }
    }
    QuotientOf(a, p, p / 2);
    if u < 0 {
      assert u * p < 0;
    }
  }

  lemma {:induction false} QuotientOf(a: nat, p: nat, r: nat)
    requires r < p
    ensures (a * p + r) / p == a
  {
    var q := (a * p + r) / p;
    assert a * p + r == p * q + (a * p + r) % p;
    Steps(p, q, a);
    Steps(p, a, q);
  }

  lemma {:induction false} Steps(p: nat, low: nat, high: nat)
    ensures low < high ==> p * low + p <= p * high
  {
    assert p * high - p * low == p * (high - low);
    if low < high {
      assert p * (high - low) == p + p * (high - low - 1);
    }
  }

  /** A value that some decimal of a scale holds is held at that scale by every text that prints it. */
  lemma {:induction false} HeldByAll(u: int, frac: nat, scale: nat, v: int)
    requires ValueOf(u, frac) == ValueOf(v, scale) && D.Fits(v)
    ensures D.CastTo(scale, D.Numeral(u, frac)) == D.Decimal(v)
  {
    if frac <= scale {
      WiderSameValue(u, frac, scale);
      SameUnscaled(u * D.Pow10(scale - frac), v, scale);
    } else {
      WiderSameValue(v, scale, frac);
      SameUnscaled(v * D.Pow10(frac - scale), u, frac);
      RoundsExactly(v, D.Pow10(frac - scale));
    }
  }

  /** A value that a read loses is no value of that read: no other cell of its column is typed as it. */
  lemma {:induction false} LostIsNoValue(t: Tuple, other: D.Cell, i: nat, scale: nat)
    requires Prints(t, i) && ValueAt(t, i) != Null && TypedValue(scale, TextAt(i)(t)) != ValueAt(t, i)
    ensures TypedValue(scale, other) != ValueAt(t, i)
  {
    if TypedValue(scale, other) == ValueAt(t, i) {
      var v := D.CastTo(scale, other).unscaled;
      HeldByAll(Unscaled(ValueAt(t, i).v, DigitsAt(t, i)), DigitsAt(t, i), scale, v);
    }
  }

  // --- one key as a key set -----------------------------------------------------------------------------------

  function OneKey(f: Field, v: Value): KeySet {
    KeySet(f.name, Table([f], [[v]]))
  }

  lemma {:induction false} HitsOneKey(schema: seq<Field>, i: nat, row: Row, v: Value)
    requires DistinctColumns(schema) && i < |schema| && v != Null
    ensures Hits(schema, row, OneKey(schema[i], v)) <==> i < |row| && row[i] == v
    ensures HitsAll(schema, row, [OneKey(schema[i], v)]) <==> i < |row| && row[i] == v
  {
    IndexDistinct(schema, i);
    assert KeyValues(OneKey(schema[i], v).keys) == [v];
    assert [OneKey(schema[i], v)][0] == OneKey(schema[i], v);
  }

  lemma {:induction false} TypedNames(schema: seq<Field>, scales: nat -> nat)
    requires DistinctColumns(schema)
    ensures DistinctColumns(TypedSchema(schema, scales))
  {
  }

  /** A row of the plain read is joinable by one key of a NUMERIC column exactly when it is read as that key. */
  lemma {:induction false} ReadHitsOneKey(s: Stored, i: nat, t: Tuple, v: Value)
    requires DistinctColumns(s.schema) && i < |s.schema| && s.schema[i].dtype == Numeric && v != Null
    ensures HitsAll(Read(Postgres, s).schema, TypedRow(s.schema, ScalesOf(s.heap), t), [OneKey(s.schema[i], v)]) <==>
              TypedValue(ScaleAt(s.heap, i), TextAt(i)(t)) == v
  {
    var out := Read(Postgres, s).schema;
    TypedNames(s.schema, ScalesOf(s.heap));
    IndexDistinct(out, i);
    IndexDistinct(s.schema, i);
    assert KeyValues(OneKey(s.schema[i], v).keys) == [v];
    assert [OneKey(s.schema[i], v)][0] == OneKey(s.schema[i], v);
  }

  /** What the plain read makes of one value. */
  function TypedIn(s: Stored, k: nat, i: nat): Value
    requires k < |s.heap|
  {
    TypedValue(ScaleAt(s.heap, i), TextAt(i)(s.heap[k]))
  }

  // --- exactly when a reduced read is the reduced plain read -----------------------------------------------------

  /** Key sets that an IN list delivers: some, on columns of the relation, none of them empty or over the cap. */
  predicate Inlined(schema: seq<Field>, ks: seq<KeySet>) {
    ks != [] && forall i :: 0 <= i < |ks| ==> RidesAlong(ks[i]) && IndexOf(schema, ks[i].column).Some?
  }

  ghost predicate HitReadsAreRows(s: Stored) {
    forall ks :: Inlined(s.schema, ks) ==> Read(Postgres, HitTuples(s, ks)).rows == Hitting(Read(Postgres, s), ks)
  }

  /**
   * Under all key sets that an IN list delivers, reading what they can join gives the rows of the plain read that
   * they can join, if and only if the plain read keeps every value.
   */
  lemma {:induction false} HitReadsIff(s: Stored)
    requires Printed(s)
    ensures HitReadsAreRows(s) <==> KeepsValues(s)
  {
    if KeepsValues(s) {
      forall ks | Inlined(s.schema, ks) ensures Read(Postgres, HitTuples(s, ks)).rows ==
        Hitting(Read(Postgres, s), ks) {
        HitRows(Postgres, s, ks);
      }
    } else {
      var k, i := LostCell(s);
      LostShows(s, k, i);
    }
  }

  lemma {:induction false} RowsKept(s: Stored)
    requires forall k :: 0 <= k < |s.heap| ==> TypedRow(s.schema, ScalesOf(s.heap), s.heap[k]) == s.heap[k].row
    ensures KeepsValues(s)
  {
  }

  lemma {:induction false} RowKept(schema: seq<Field>, scales: nat -> nat, t: Tuple)
    requires |t.row| == |schema|
    requires forall i: nat :: i < |schema| && schema[i].dtype == Numeric ==>
               TypedValue(scales(i), TextAt(i)(t)) == ValueAt(t, i)
    ensures TypedRow(schema, scales, t) == t.row
  {
  }

  lemma {:induction false} LostCell(s: Stored) returns (k: nat, i: nat)
    requires Printed(s) && !KeepsValues(s)
    ensures k < |s.heap| && i < |s.schema| && s.schema[i].dtype == Numeric && ValueAt(s.heap[k], i) != Null
    ensures TypedIn(s, k, i) != ValueAt(s.heap[k], i)
  {
    if forall k :: 0 <= k < |s.heap| ==> TypedRow(s.schema, ScalesOf(s.heap), s.heap[k]) == s.heap[k].row {
      RowsKept(s);
    }
    k :| k < |s.heap| && TypedRow(s.schema, ScalesOf(s.heap), s.heap[k]) != s.heap[k].row;
    i := LostColumn(s.schema, ScalesOf(s.heap), s.heap[k]);
    NullStays(s.heap[k], i, ScaleAt(s.heap, i));
  }

  lemma {:induction false} LostColumn(schema: seq<Field>, scales: nat -> nat, t: Tuple) returns (i: nat)
    requires |t.row| == |schema| && TypedRow(schema, scales, t) != t.row
    ensures i < |schema| && schema[i].dtype == Numeric && TypedValue(scales(i), TextAt(i)(t)) != ValueAt(t, i)
  {
    if forall i: nat :: i < |schema| && schema[i].dtype == Numeric ==>
      TypedValue(scales(i), TextAt(i)(t)) == ValueAt(t, i) {
      RowKept(schema, scales, t);
    }
    i :| i < |schema| && schema[i].dtype == Numeric && TypedValue(scales(i), TextAt(i)(t)) != ValueAt(t, i);
  }

  lemma {:induction false} NullStays(t: Tuple, i: nat, scale: nat)
    ensures ValueAt(t, i) == Null ==> TypedValue(scale, TextAt(i)(t)) == Null
  {
  }

  /** The lost value as its own key: some tuple has it, and no row of the plain read does. */
  lemma {:induction false} LostShows(s: Stored, k: nat, i: nat)
    requires Printed(s) && k < |s.heap| && i < |s.schema| && s.schema[i].dtype == Numeric
    requires ValueAt(s.heap[k], i) != Null
    requires TypedIn(s, k, i) != ValueAt(s.heap[k], i)
    ensures !HitReadsAreRows(s)
  {
    var v := ValueAt(s.heap[k], i);
    var ks := [OneKey(s.schema[i], v)];
    HitsOneKey(s.schema, i, s.heap[k].row, v);
    FilterWithin(TupleHitter(s.schema, ks), s.heap);
    assert s.heap[k] in HitTuples(s, ks).heap;
    NoRowReads(s, k, i);
    assert Inlined(s.schema, ks);
    assert Read(Postgres, HitTuples(s, ks)).rows != Hitting(Read(Postgres, s), ks);
  }

  lemma {:induction false} NoRowReads(s: Stored, k: nat, i: nat)
    requires Printed(s) && k < |s.heap| && i < |s.schema| && s.schema[i].dtype == Numeric
    requires ValueAt(s.heap[k], i) != Null
    requires TypedIn(s, k, i) != ValueAt(s.heap[k], i)
    ensures Hitting(Read(Postgres, s), [OneKey(s.schema[i], ValueAt(s.heap[k], i))]) == []
    ensures forall m :: 0 <= m < |s.heap| ==> Read(Postgres, s).rows[m][i] != ValueAt(s.heap[k], i)
  {
    var base, v := Read(Postgres, s), ValueAt(s.heap[k], i);
    var ks := [OneKey(s.schema[i], v)];
    assert Prints(s.heap[k], i);
    forall m | 0 <= m < |s.heap|
      ensures base.rows[m][i] != v && !Hitter(base.schema, ks)(base.rows[m])
    {
      LostIsNoValue(s.heap[k], TextAt(i)(s.heap[m]), i, ScaleAt(s.heap, i));
      ReadHitsOneKey(s, i, s.heap[m], v);
    }
    FilterNothing(Hitter(base.schema, ks), base.rows);
  }

  // --- exactly when a reduced read is sandwiched -------------------------------------------------------------------

  ghost predicate AlwaysSandwiched(s: Stored) {
    forall ks :: Inlined(s.schema, ks) ==> Sandwiched(Read(Postgres, s), Read(Postgres, HitTuples(s, ks)), ks)
  }

  /**
   * Under all key sets that an IN list delivers, what is read lies between the joinable rows of the plain read and
   * all of them, if and only if nothing turns: no value is rounded, and none is lost that its tuple's peers alone
   * would not lose.
   */
  lemma {:induction false} SandwichedReadsIff(s: Stored)
    requires Printed(s)
    ensures AlwaysSandwiched(s) <==> NothingTurns(s)
  {
    if NothingTurns(s) {
      forall ks | Inlined(s.schema, ks) ensures Sandwiched(Read(Postgres, s), Read(Postgres, HitTuples(s, ks)), ks) {
        HitSandwich(s, ks);
      }
    } else {
      var k: nat, i: nat :| k < |s.heap| && i < |s.schema| && s.schema[i].dtype == Numeric && !Settled(s, s.heap[k], i);
      var typed := TypedIn(s, k, i);
      if typed != Null && typed != ValueAt(s.heap[k], i) {
        RoundedShows(s, k, i);
      } else {
        LostAmongAllShows(s, k, i);
      }
    }
  }

  lemma {:induction false} FilterSizes<T>(p: T -> bool, q: T -> bool, s: seq<T>)
    requires forall k :: 0 <= k < |s| && p(s[k]) ==> q(s[k])
    ensures |Filter(p, s)| <= |Filter(q, s)|
    ensures (exists k :: 0 <= k < |s| && q(s[k]) && !p(s[k])) ==> |Filter(p, s)| < |Filter(q, s)|
  {
    if s != [] {
      assert forall k :: 0 <= k < |s[1..]| ==> s[1..][k] == s[k + 1];
      FilterSizes(p, q, s[1..]);
      if k :| 0 <= k < |s| && q(s[k]) && !p(s[k]) && k > 0 {
        assert s[1..][k - 1] == s[k];
      }
    }
  }

  /** A rounded value as a key: the plain read has more rows with it than there are tuples. */
  lemma {:induction false} RoundedShows(s: Stored, k: nat, i: nat)
    requires Printed(s) && k < |s.heap| && i < |s.schema| && s.schema[i].dtype == Numeric
    requires TypedIn(s, k, i) != Null && TypedIn(s, k, i) != ValueAt(s.heap[k], i)
    ensures !AlwaysSandwiched(s)
  {
    var ks := [OneKey(s.schema[i], TypedIn(s, k, i))];
    RoundedCounts(s, k, i);
    RoundedKey(s, ks);
    IndexDistinct(s.schema, i);
    assert Inlined(s.schema, ks);
  }

  lemma {:induction false} RoundedCounts(s: Stored, k: nat, i: nat)
    requires Printed(s) && k < |s.heap| && i < |s.schema| && s.schema[i].dtype == Numeric
    requires TypedIn(s, k, i) != Null && TypedIn(s, k, i) != ValueAt(s.heap[k], i)
    ensures var ks := [OneKey(s.schema[i], TypedIn(s, k, i))];
            |Hitting(Read(Postgres, s), ks)| > |HitTuples(s, ks).heap|
  {
    var v := TypedIn(s, k, i);
    var ks := [OneKey(s.schema[i], v)];
    forall m: nat | m < |s.heap| && TupleHitter(s.schema, ks)(s.heap[m])
      ensures Hitter(Read(Postgres, s).schema, ks)(RowTyper(s.schema, ScalesOf(s.heap))(s.heap[m]))
    {
      StoredIsRead(s, k, m, i);
    }
    HitsOneKey(s.schema, i, s.heap[k].row, v);
    ReadHitsOneKey(s, i, s.heap[k], v);
    MoreAfter(RowTyper(s.schema, ScalesOf(s.heap)), TupleHitter(s.schema, ks), Hitter(Read(Postgres, s).schema, ks),
      s.heap, k);
  }

  lemma {:induction false} RoundedKey(s: Stored, ks: seq<KeySet>)
    requires |Hitting(Read(Postgres, s), ks)| > |HitTuples(s, ks).heap|
    ensures !Sandwiched(Read(Postgres, s), Read(Postgres, HitTuples(s, ks)), ks)
  {
    LargerIsNoPart(Hitting(Read(Postgres, s), ks), Read(Postgres, HitTuples(s, ks)).rows);
  }

  /** More passes after a map than before it, when what passes before it passes after, and something else does too. */
  lemma {:induction false} MoreAfter<T, U>(f: T -> U, before: T -> bool, after: U -> bool, s: seq<T>, k: nat)
    requires k < |s| && after(f(s[k])) && !before(s[k])
    requires forall m: nat :: m < |s| && before(s[m]) ==> after(f(s[m]))
    ensures |Filter(after, Map(f, s))| > |Filter(before, s)|
  {
    var all, mapped := (t: T) => true, (t: T) => after(f(t));
    FilterEverything(all, s);
    FilterThrough(all, mapped, f, after, s);
    FilterSizes(before, mapped, s);
  }

  /** A value that some cell is read as is read as itself wherever it is stored. */
  lemma {:induction false} StoredIsRead(s: Stored, k: nat, m: nat, i: nat)
    requires Printed(s) && k < |s.heap| && m < |s.heap| && i < |s.schema| && s.schema[i].dtype == Numeric
    requires TypedIn(s, k, i) != Null && TupleHitter(s.schema, [OneKey(s.schema[i], TypedIn(s, k, i))])(s.heap[m])
    ensures HitsAll(Read(Postgres, s).schema, TypedRow(s.schema, ScalesOf(s.heap), s.heap[m]),
                    [OneKey(s.schema[i], TypedIn(s, k, i))])
  {
    var v := TypedIn(s, k, i);
    HitsOneKey(s.schema, i, s.heap[m].row, v);
    ReadHitsOneKey(s, i, s.heap[m], v);
    assert Prints(s.heap[m], i);
    if TypedValue(ScaleAt(s.heap, i), TextAt(i)(s.heap[m])) != v {
      LostIsNoValue(s.heap[m], TextAt(i)(s.heap[k]), i, ScaleAt(s.heap, i));
    }
  }

  lemma {:induction false} LargerIsNoPart(a: seq<Row>, b: seq<Row>)
    requires |a| > |b|
    ensures !(multiset(a) <= multiset(b))
  {
    PartIsSmaller(multiset(a), multiset(b));
  }

  lemma {:induction false} PartIsSmaller(a: multiset<Row>, b: multiset<Row>)
    ensures a <= b ==> |a| <= |b|
  {
    if a <= b {
      assert b == a + (b - a);
    }
  }

  /** The key sets that join a row by every value it has. */
  function OwnKeys(schema: seq<Field>, row: Row, n: nat): seq<KeySet>
    requires n <= |schema|
  {
    if n == 0 then []
    else
      var v := Cell(schema, row, schema[n - 1].name);
      OwnKeys(schema, row, n - 1) + (if v == Null then [] else [OneKey(schema[n - 1], v)])
  }

  lemma {:induction false} OwnKeysHit(schema: seq<Field>, t: Tuple, u: Tuple, n: nat)
    requires n <= |schema|
    ensures HitsAll(schema, u.row, OwnKeys(schema, t.row, n)) <==>
              forall i :: 0 <= i < n ==>
                var v := Cell(schema, t.row, schema[i].name); v != Null ==> Cell(schema, u.row, schema[i].name) == v
  {
    if n > 0 {
      OwnKeysHit(schema, t, u, n - 1);
      var v := Cell(schema, t.row, schema[n - 1].name);
      if v != Null {
        HitsBoth(schema, u.row, OwnKeys(schema, t.row, n - 1), [OneKey(schema[n - 1], v)]);
        assert KeyValues(OneKey(schema[n - 1], v).keys) == [v];
        assert [OneKey(schema[n - 1], v)][0] == OneKey(schema[n - 1], v);
      } else {
        assert OwnKeys(schema, t.row, n) == OwnKeys(schema, t.row, n - 1);
      }
    }
  }

  lemma {:induction false} OwnKeysInlined(schema: seq<Field>, row: Row, n: nat, i: nat)
    requires i < n <= |schema| && Cell(schema, row, schema[i].name) != Null
    ensures Inlined(schema, OwnKeys(schema, row, n))
  {
    OwnKeysRide(schema, row, n);
    OwnKeysSome(schema, row, n, i);
  }

  lemma {:induction false} OwnKeysRide(schema: seq<Field>, row: Row, n: nat)
    requires n <= |schema|
    ensures forall k :: k in OwnKeys(schema, row, n) ==> RidesAlong(k) && IndexOf(schema, k.column).Some?
  {
    if n > 0 {
      OwnKeysRide(schema, row, n - 1);
    }
  }

  lemma {:induction false} OwnKeysSome(schema: seq<Field>, row: Row, n: nat, i: nat)
    requires i < n <= |schema| && Cell(schema, row, schema[i].name) != Null
    ensures OwnKeys(schema, row, n) != []
  {
    if i < n - 1 {
      OwnKeysSome(schema, row, n - 1, i);
    }
  }

  /** What a tuple's own key sets can join are its peers. */
  lemma {:induction false} OwnKeysArePeers(s: Stored, t: Tuple)
    ensures HitTuples(s, OwnKeys(s.schema, t.row, |s.schema|)).heap == Peers(s, t)
  {
    var ks := OwnKeys(s.schema, t.row, |s.schema|);
    forall u ensures TupleHitter(s.schema, ks)(u) <==> Peering(s.schema, t)(u) {
      OwnKeysHit(s.schema, t, u, |s.schema|);
    }
    FilterCongruence(TupleHitter(s.schema, ks), Peering(s.schema, t), s.heap);
  }

  /**
   * A value lost to the plain read and not to its tuple's peers: the read of these has a row that the plain one has
   * not.
   */
  lemma {:induction false} LostAmongAllShows(s: Stored, k: nat, i: nat)
    requires Printed(s) && k < |s.heap| && i < |s.schema| && s.schema[i].dtype == Numeric && !Settled(s, s.heap[k], i)
    requires TypedIn(s, k, i) == Null || TypedIn(s, k, i) == ValueAt(s.heap[k], i)
    ensures !AlwaysSandwiched(s)
  {
    var t := s.heap[k];
    var ks, part := OwnKeys(s.schema, t.row, |s.schema|), Peers(s, t);
    OwnKeysArePeers(s, t);
    FilterWithin(Peering(s.schema, t), s.heap);
    assert t in part;
    var m :| 0 <= m < |part| && part[m] == t;
    KeptAmongPeers(s, k, i, m);
    NoRowReads(s, k, i);
    var row := Read(Postgres, HitTuples(s, ks)).rows[m];
    assert row in multiset(Read(Postgres, HitTuples(s, ks)).rows);
    assert row !in Read(Postgres, s).rows;
    IndexDistinct(s.schema, i);
    OwnKeysInlined(s.schema, t.row, |s.schema|, i);
    assert !Sandwiched(Read(Postgres, s), Read(Postgres, HitTuples(s, ks)), ks);
  }

  lemma {:induction false} KeptAmongPeers(s: Stored, k: nat, i: nat, m: nat)
    requires Printed(s) && k < |s.heap| && i < |s.schema| && s.schema[i].dtype == Numeric && !Settled(s, s.heap[k], i)
    requires TypedIn(s, k, i) == Null || TypedIn(s, k, i) == ValueAt(s.heap[k], i)
    requires m < |Peers(s, s.heap[k])| && Peers(s, s.heap[k])[m] == s.heap[k]
    ensures ValueAt(s.heap[k], i) != Null && TypedIn(s, k, i) == Null
    ensures TypedValue(ScaleAt(Peers(s, s.heap[k]), i), TextAt(i)(s.heap[k])) == ValueAt(s.heap[k], i)
  {
    FilterWithin(Peering(s.schema, s.heap[k]), s.heap);
    ScalesWithin(s.heap, Peers(s, s.heap[k]), m, i);
    assert Prints(s.heap[k], i);
    LostLater(s.heap[k], i, ScaleAt(Peers(s, s.heap[k]), i), ScaleAt(s.heap, i));
  }

  /** A value that a wider scale changes to NULL, or not at all, and a narrower one does not change alike. */
  lemma {:induction false} LostLater(t: Tuple, i: nat, narrow: nat, wide: nat)
    requires Prints(t, i) && D.Digits(TextAt(i)(t)) <= narrow <= wide <= D.MAX_FRACTION
    requires TypedValue(wide, TextAt(i)(t)) == Null || TypedValue(wide, TextAt(i)(t)) == ValueAt(t, i)
    requires TypedValue(narrow, TextAt(i)(t)) != TypedValue(wide, TextAt(i)(t))
    ensures ValueAt(t, i) != Null && TypedValue(wide, TextAt(i)(t)) == Null
    ensures TypedValue(narrow, TextAt(i)(t)) == ValueAt(t, i)
  {
    var text := TextAt(i)(t);
    if TypedValue(wide, text) != Null {
      NotLostBetween(text, narrow, wide);
    } else {
      NotLostIsPrinted(text, narrow, wide);
    }
  }

  lemma {:induction false} NotLostIsPrinted(text: D.Cell, narrow: nat, wide: nat)
    requires text.Null? || text.Numeral?
    requires D.Digits(text) <= narrow <= wide <= D.MAX_FRACTION
    requires TypedValue(narrow, text) != Null && TypedValue(wide, text) == Null
    ensures text.Numeral? && TypedValue(narrow, text) == Dec(ValueOf(text.unscaled, text.frac))
  {
    if text.frac <= D.MAX_FRACTION {
      WiderSameValue(text.unscaled, text.frac, narrow);
    }
  }

  // --- the same, delivery by delivery ------------------------------------------------------------------------------

  /** What an IN-list delivery of some key sets reads, against the plain scan. */
  ghost predicate InlineSandwich(w: World, pins: Pins, ds: string, scan: ScanSpec, ks: seq<KeySet>)
    requires ks != [] && FetchScan(w, pins, ds, scan, None).Ok?
  {
    var fetched := RunInjectedScan(w, pins, ds, scan, ks[0].column, ks[0].keys, None, ks[1..]);
    fetched.Ok? && Sandwiched(FetchScan(w, pins, ds, scan, None).value, fetched.value, ks)
  }

  /** A structured, unlimited probe of a Postgres table that the source answers. */
  predicate Probes(w: World, pins: Pins, ds: string, scan: ScanSpec) {
    && ds in w.registry && w.registry[ds].kind == Postgres
    && scan.rawSql.None? && scan.injectedSql.None? && !scan.distinct && scan.limit.None?
    && FetchTuples(w, pins, ds, scan, None).Ok?
  }

  /** An IN-list delivery of key sets on the probe's columns is answered, with the tuples they can join. */
  lemma {:induction false} InlineReads(w: World, pins: Pins, ds: string, scan: ScanSpec, ks: seq<KeySet>)
    requires Probes(w, pins, ds, scan) && Inlined(FetchTuples(w, pins, ds, scan, None).value.schema, ks)
    ensures RunInjectedScan(w, pins, ds, scan, ks[0].column, ks[0].keys, None, ks[1..]) ==
              Ok(Read(Postgres, HitTuples(FetchTuples(w, pins, ds, scan, None).value, ks)))
  {
    var extras := ks[1..];
    FilterEverything(Riders(), extras);
    assert [KeySet(ks[0].column, ks[0].keys)] + extras == ks;
    ColumnsOfProbe(w, pins, ds, scan, ks);
    assert ColumnsIn(extras, scan.columns) && RidesAlong(ks[0]);
    RunsScan(w, pins, ds, scan, ks[0].column, ks[0].keys, None, extras);
    InlineResolves(w, pins, ds, scan, ks);
    InlineFetch(w, pins, ds, scan, ks[0].column, ks[0].keys, extras);
  }

  lemma {:induction false} ColumnsOfProbe(w: World, pins: Pins, ds: string, scan: ScanSpec, ks: seq<KeySet>)
    requires Probes(w, pins, ds, scan) && Inlined(FetchTuples(w, pins, ds, scan, None).value.schema, ks)
    ensures ColumnsIn(ks, scan.columns) && scan.table.Some? && scan.columns != []
  {
    BaseShape(w, pins, ds, scan);
    var s := FromItem(w, w.registry[ds], VisibleTemps(pins, w.registry[ds]), FromOf(scan)).value;
    forall k | 0 <= k < |ks| ensures ks[k].column in scan.columns {
      var out := ProjectSchema(s.schema, Some(scan.columns));
      var i := IndexOf(out, ks[k].column).value;
      assert out[i].name == scan.columns[i];
    }
  }

  lemma {:induction false} InlineResolves(w: World, pins: Pins, ds: string, scan: ScanSpec, ks: seq<KeySet>)
    requires Probes(w, pins, ds, scan) && ks != [] && ColumnsIn(ks, scan.columns)
    ensures FetchTuples(w, pins, ds, scan,
              Some([InList(ks[0].column, KeyValues(ks[0].keys))] + ExtraFilters(ks[1..]))).Ok?
  {
    var ps := [InList(ks[0].column, KeyValues(ks[0].keys))] + ExtraFilters(ks[1..]);
    var s := FromItem(w, w.registry[ds], VisibleTemps(pins, w.registry[ds]), FromOf(scan)).value;
    ListsOn(ks, scan.columns);
    FilterResolves(s.schema, scan, ps);
  }

  /** The predicates of an IN-list delivery are lists on columns of the probe. */
  lemma {:induction false} ListsOn(ks: seq<KeySet>, columns: seq<string>)
    requires ks != [] && ColumnsIn(ks, columns)
    ensures forall p :: p in [InList(ks[0].column, KeyValues(ks[0].keys))] + ExtraFilters(ks[1..]) ==>
              p.InList? && p.column in columns
  {
    forall p | p in ExtraFilters(ks[1..]) ensures p.InList? && p.column in columns {
      ExtraFiltersExactly(ks[1..], p);
      var j :| 0 <= j < |ks[1..]| && RidesAlong(ks[1..][j]) && p == InListOf(ks[1..][j]);
      assert ks[1..][j] == ks[j + 1];
    }
  }

  lemma {:induction false} FilterResolves(schema: seq<Field>, scan: ScanSpec, ps: seq<Pred>)
    requires HasColumns(schema, scan.columns) && forall p :: p in ps ==> p.InList? && p.column in scan.columns
    ensures forall k :: 0 <= k < |StaticFilter(scan) + ps| ==>
              HasColumns(schema, PredColumns((StaticFilter(scan) + ps)[k])) && !(StaticFilter(scan) + ps)[k].InTemp?
  {
    var where_ := StaticFilter(scan) + ps;
    forall k | 0 <= k < |where_| ensures HasColumns(schema, PredColumns(where_[k])) && !where_[k].InTemp? {
      if k >= |StaticFilter(scan)| {
        assert where_[k] in ps;
      }
    }
  }

  /** Every IN-list delivery to a Postgres probe is sandwiched by its plain scan, if and only if nothing turns there. */
  lemma {:induction false} InlineSandwichedIff(w: World, pins: Pins, ds: string, scan: ScanSpec)
    requires Probes(w, pins, ds, scan) && Printed(FetchTuples(w, pins, ds, scan, None).value)
    ensures (forall ks :: Inlined(FetchTuples(w, pins, ds, scan, None).value.schema, ks) ==>
               InlineSandwich(w, pins, ds, scan, ks)) <==>
              NothingTurns(FetchTuples(w, pins, ds, scan, None).value)
  {
    var s := FetchTuples(w, pins, ds, scan, None).value;
    SandwichedReadsIff(s);
    forall ks | Inlined(s.schema, ks)
      ensures InlineSandwich(w, pins, ds, scan, ks) <==>
                Sandwiched(Read(Postgres, s), Read(Postgres, HitTuples(s, ks)), ks)
    {
      InlineReads(w, pins, ds, scan, ks);
    }
  }

  // --- an input that shows it ------------------------------------------------------------------------------------

  lemma {:induction false} PrintsItself(u: int, frac: nat)
    ensures Unscaled(ValueOf(u, frac), frac) == u
  {
    assert ValueOf(u, frac) * D.Pow10(frac) as real == u as real;
  }

  /** Half of the last digit that a decimal keeps rounds up to it. */
  lemma {:induction false} HalfRoundsUp()
    ensures D.CastTo(D.MAX_FRACTION, D.Numeral(5, D.MAX_FRACTION + 1)) == D.Decimal(1)
    ensures ValueOf(5, D.MAX_FRACTION + 1) != ValueOf(1, D.MAX_FRACTION)
  {
    assert D.Pow10(0) == 1 && D.Pow10(1) == 10;
    WiderSameValue(1, D.MAX_FRACTION, D.MAX_FRACTION + 1);
    if ValueOf(5, D.MAX_FRACTION + 1) == ValueOf(1, D.MAX_FRACTION) {
      SameUnscaled(5, 10, D.MAX_FRACTION + 1);
    }
  }

  /** A table of the one value 5e-38. */
  function Halves(): Stored {
    Stored([Field("k", Numeric)], [Tuple(0, [Dec(ValueOf(5, D.MAX_FRACTION + 1))], [D.MAX_FRACTION + 1])])
  }

  lemma {:induction false} OneTupleIsStable(schema: seq<Field>, t: Tuple)
    ensures StableTyping(Stored(schema, [t]))
  {
  }

  lemma {:induction false} HalfTyped(t: Tuple)
    requires t == Halves().heap[0]
    ensures ScaleAt([t], 0) == D.MAX_FRACTION
    ensures TypedValue(D.MAX_FRACTION, TextAt(0)(t)) == Dec(ValueOf(1, D.MAX_FRACTION)) != ValueAt(t, 0)
  {
    PrintsItself(5, D.MAX_FRACTION + 1);
    HalfRoundsUp();
    assert TextAt(0)(t) == D.Numeral(5, D.MAX_FRACTION + 1);
    OneScale(t, 0);
  }

  lemma {:induction false} TurnsOne(s: Stored, t: Tuple, typed: Value)
    requires s.heap == [t] && s.schema == [Field("k", Numeric)]
    requires typed == TypedValue(ScaleAt([t], 0), TextAt(0)(t)) && typed != Null && typed != ValueAt(t, 0)
    ensures Read(Postgres, s).rows == [[typed]] && !NothingTurns(s)
  {
    assert !Settled(s, s.heap[0], 0);
    assert Read(Postgres, s).rows[0] == [typed];
  }

  lemma {:induction false} HalvesRead()
    ensures Read(Postgres, Halves()).rows == [[Dec(ValueOf(1, D.MAX_FRACTION))]]
    ensures StableTyping(Halves()) && !NothingTurns(Halves())
  {
    var t := Halves().heap[0];
    HalfTyped(t);
    OneTupleIsStable(Halves().schema, t);
    TurnsOne(Halves(), t, Dec(ValueOf(1, D.MAX_FRACTION)));
  }

  /** The key 1e-37. */
  function HalfKeys(): Table {
    Table([Field("k", Decimal128(D.DECIMAL_PRECISION, D.MAX_FRACTION))], [[Dec(ValueOf(1, D.MAX_FRACTION))]])
  }

  /**
   * A probe and its plain read succeed, no value that fits alone is lost, and yet the plain read does not sandwich
   * it.
   */
  ghost predicate UnstableProbe(w: World, ds: string, scan: ScanSpec, keys: Table) {
    var plain, base := FetchTuples(w, map[], ds, scan, None), FetchScan(w, map[], ds, scan, None);
    var fetched := RunInjectedScan(w, map[], ds, scan, "k", keys, None, []);
    && plain.Ok? && base.Ok? && fetched.Ok? && StableTyping(plain.value)
    && !Sandwiched(base.value, fetched.value, [KeySet("k", keys)])
  }

  /**
   * The plain read rounds 5e-38 to 1e-37, which a key 1e-37 joins; the IN list compares the stored value and reads
   * nothing, although no value that fits alone is lost.
   */
  lemma {:induction false} RoundedIsNotSandwiched(w: World, ds: string)
    requires ds in w.registry && w.registry[ds].kind == Postgres
    ensures w.stored(w.registry[ds], None, "t") == Some(Halves()) ==>
              UnstableProbe(w, ds, ProbeOf(false, None), HalfKeys())
  {
    if w.stored(w.registry[ds], None, "t") == Some(Halves()) {
      HalvesAnswered(w, ds, ProbeOf(false, None), HalfKeys());
      HalvesRead();
      var base := FetchScan(w, map[], ds, ProbeOf(false, None), None).value;
      var fetched := RunInjectedScan(w, map[], ds, ProbeOf(false, None), "k", HalfKeys(), None, []).value;
      JoinableRowMissing(base, fetched, HalfKeys(), Dec(ValueOf(1, D.MAX_FRACTION)));
    }
  }

  lemma {:induction false} JoinableRowMissing(base: Table, fetched: Table, keys: Table, v: Value)
    requires base.rows == [[v]] && fetched.rows == [] && v != Null && keys.rows == [[v]]
    requires IndexOf(base.schema, "k") == Some(0)
    ensures !Sandwiched(base, fetched, [KeySet("k", keys)])
  {
    var ks := [KeySet("k", keys)];
    assert KeyValues(keys) == [v];
    assert Hits(base.schema, base.rows[0], ks[0]);
    FilterWithin(Hitter(base.schema, ks), base.rows);
    assert base.rows[0] in Hitting(base, ks);
    assert base.rows[0] in multiset(Hitting(base, ks));
  }

  lemma {:induction false} HalvesAnswered(w: World, ds: string, scan: ScanSpec, keys: Table)
    requires ds in w.registry && w.registry[ds].kind == Postgres
    requires w.stored(w.registry[ds], None, "t") == Some(Halves())
    requires scan == ProbeOf(false, None)
    requires keys == HalfKeys()
    ensures FetchTuples(w, map[], ds, scan, None) == Ok(Halves())
    ensures RunInjectedScan(w, map[], ds, scan, "k", keys, None, []).Ok?
    ensures RunInjectedScan(w, map[], ds, scan, "k", keys, None, []).value.rows == []
  {
    var ps := [InListOf(KeySet("k", keys))];
    RunsScan(w, map[], ds, scan, "k", keys, None, []);
    assert ps + ExtraFilters([]) == ps;
    HalvesFetched(w, ds, scan, ps);
    InlineFetch(w, map[], ds, scan, "k", keys, []);
    assert [KeySet("k", keys)] + Filter(Riders(), []) == [KeySet("k", keys)];
    NoHalfHits(keys);
  }

  lemma {:induction false} NoHalfHits(keys: Table)
    requires keys == HalfKeys()
    ensures HitTuples(Halves(), [KeySet("k", keys)]).heap == []
  {
    var ks := [KeySet("k", keys)];
    HalfRoundsUp();
    assert KeyValues(keys) == [Dec(ValueOf(1, D.MAX_FRACTION))];
    forall m | 0 <= m < |Halves().heap| ensures !TupleHitter(Halves().schema, ks)(Halves().heap[m]) {
      assert !Hits(Halves().schema, Halves().heap[m].row, ks[0]);
    }
    FilterNothing(TupleHitter(Halves().schema, ks), Halves().heap);
  }

  lemma {:induction false} HalvesFetched(w: World, ds: string, scan: ScanSpec, ps: seq<Pred>)
    requires ds in w.registry && w.registry[ds].kind == Postgres
    requires w.stored(w.registry[ds], None, "t") == Some(Halves())
    requires scan == ProbeOf(false, None)
    requires |ps| == 1 && ps[0].InList? && ps[0].column == "k"
    ensures FetchTuples(w, map[], ds, scan, None) == Ok(Halves())
    ensures FetchTuples(w, map[], ds, scan, Some(ps)).Ok?
  {
    HalvesPlainly(w, ds, scan);
    assert StaticFilter(scan) + ps == ps;
    assert HasColumns(Halves().schema, ["k"]) && HasColumns(Halves().schema, PredColumns(ps[0]));
  }

  lemma {:induction false} HalvesPlainly(w: World, ds: string, scan: ScanSpec)
    requires ds in w.registry && w.registry[ds].kind == Postgres
    requires w.stored(w.registry[ds], None, "t") == Some(Halves())
    requires scan == ProbeOf(false, None)
    ensures FetchTuples(w, map[], ds, scan, None) == Ok(Halves())
  {
    assert StaticFilter(scan) + [] == [] && HasColumns(Halves().schema, ["k"]);
    HalvesSelected(w);
  }

  lemma {:induction false} HalvesSelected(w: World)
    ensures SelectTuples(w, map[], Halves(), Some(["k"]), []) == Halves().heap
    ensures ProjectSchema(Halves().schema, Some(["k"])) == Halves().schema
  {
    FilterEverything(Keeper(w, map[], Halves().schema, []), Halves().heap);
    HalvesProjected();
  }

  lemma {:induction false} HalvesProjected()
    ensures Map(Projector(Halves().schema, Some(["k"])), Halves().heap) == Halves().heap
    ensures ProjectSchema(Halves().schema, Some(["k"])) == Halves().schema
  {
    var s := Halves();
    assert IndexOf(s.schema, "k") == Some(0);
    assert ProjectRow(s.schema, Some(["k"]), s.heap[0].row) == s.heap[0].row;
    assert ProjectDigits(s.schema, ["k"], s.heap[0].digits) == s.heap[0].digits;
  }
}
