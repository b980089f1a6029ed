/** Partitions that normalize their own decimals, once reconciled, agree with normalizing all rows at once. */
module DecimalProofs {
  import opened Outcomes
  import opened Decimals

  // --- scales -----------------------------------------------------------------------------------------

  lemma {:induction false} WidestBounds(texts: seq<Cell>, k: nat)
    requires k < |texts|
    ensures Digits(texts[k]) <= Widest(texts)
  {
    if k < |texts| - 1 {
      assert texts[..|texts| - 1][k] == texts[k];
      WidestBounds(texts[..|texts| - 1], k);
    }
  }

  lemma {:induction false} WidestAttained(texts: seq<Cell>)
    ensures Widest(texts) <= MAX_FRACTION
    ensures Widest(texts) > 0 ==> exists k :: 0 <= k < |texts| && Digits(texts[k]) == Widest(texts)
  {
    if texts != [] {
      var init := texts[..|texts| - 1];
      WidestAttained(init);
      if Widest(texts) > 0 {
        if Widest(texts) == Widest(init) {
          var k :| 0 <= k < |init| && Digits(init[k]) == Widest(init);
          assert texts[k] == init[k];
        } else {
          assert Digits(texts[|texts| - 1]) == Widest(texts);
        }
      }
    }
  }

  lemma {:induction false} ScaleBounds(batches: seq<Batch>, i: nat, k: nat)
    requires k < |batches|
    ensures Widest(Texts(batches[k], i)) <= ScaleOver(batches, i)
  {
    if k < |batches| - 1 {
      assert batches[..|batches| - 1][k] == batches[k];
      ScaleBounds(batches[..|batches| - 1], i, k);
    }
  }

  lemma {:induction false} ScaleAttained(batches: seq<Batch>, i: nat)
    ensures ScaleOver(batches, i) <= MAX_FRACTION
    ensures ScaleOver(batches, i) > 0 ==>
              exists k :: 0 <= k < |batches| && Widest(Texts(batches[k], i)) == ScaleOver(batches, i)
  {
    if batches != [] {
      var init := batches[..|batches| - 1];
      ScaleAttained(init, i);
      WidestAttained(Texts(batches[|batches| - 1], i));
      if ScaleOver(batches, i) > 0 {
        if ScaleOver(batches, i) == ScaleOver(init, i) {
          var k :| 0 <= k < |init| && Widest(Texts(init[k], i)) == ScaleOver(init, i);
          assert batches[k] == init[k];
        } else {
          assert Widest(Texts(batches[|batches| - 1], i)) == ScaleOver(batches, i);
        }
      }
    }
  }

  lemma {:induction false} ScaleOverAppend(a: seq<Batch>, b: seq<Batch>, i: nat)
    ensures ScaleOver(a + b, i) == Max(ScaleOver(a, i), ScaleOver(b, i))
  {
    if b == [] {
      assert a + b == a;
    } else {
      assert (a + b)[..|a + b| - 1] == a + b[..|b| - 1];
      ScaleOverAppend(a, b[..|b| - 1], i);
    }
  }

  // --- one cell ---------------------------------------------------------------------------------------

  lemma {:induction false} ScalingUp(u: int, f: nat, s: nat, g: nat)
    requires f <= s <= g
    ensures u * Pow10(s - f) * Pow10(g - s) == u * Pow10(g - f)
  {
    Pow10Adds(s - f, g - s);
    Associative(u, Pow10(s - f), Pow10(g - s));
  }

  lemma {:induction false} Associative(a: int, b: int, c: int)
    ensures a * b * c == a * (b * c)
  {
  }

  /** A value past the precision at one scale is past it at any wider scale. */
  lemma {:induction false} StaysUnfit(v: int, p: nat)
    requires !Fits(v) && p > 0
    ensures !Fits(v * p)
  {
    Grows(Abs(v), p);
    if v < 0 {
      assert -v * p == -(v * p);
    }
  }

  lemma {:induction false} Grows(a: nat, p: nat)
    requires p > 0
    ensures a <= a * p
  {
    assert a * p - a == a * (p - 1);
  }

  /** Casting to a partition's scale and then to a wider one is casting to the wider one. */
  lemma {:induction false} RecastIsCast(t: Cell, precision: nat, s: nat, g: nat)
    requires t.Null? || t.Numeral?
    requires Digits(t) <= s <= g <= MAX_FRACTION
    ensures CastTo(g, TextOf(Dec(precision, s), CastTo(s, t))) == CastTo(g, t)
  {
    assert Pow10(0) == 1;
    if t.Numeral? {
      if t.frac <= s {
        var v := t.unscaled * Pow10(s - t.frac);
        ScalingUp(t.unscaled, t.frac, s, g);
        if !Fits(v) {
          StaysUnfit(v, Pow10(g - s));
        }
      } else {
        var w := Rescale(t.unscaled, t.frac, s);
        assert s == g && w * Pow10(g - s) == w;
      }
    }
  }

  // --- one partition ----------------------------------------------------------------------------------

  /** Batches as the driver delivers them: under the reported schema, numerals and plain values. */
  ghost predicate Raw(schema: seq<Field>, batches: seq<Batch>) {
    forall k :: 0 <= k < |batches| ==> batches[k].schema == schema && |batches[k].columns| == |schema|
  }

  /** A read's batches with their numeric columns as decimals. */
  function Normalized(schema: seq<Field>, batches: seq<Batch>): Frame {
    var out := DecimalSchema(schema, batches, NumericColumns(schema));
    Frame(out, RebuildBatches(batches, out, Scales(batches), NumericColumns(schema)))
  }

  /** One read over one connection: normalize its numerics, then reconcile. */
  function RunQuery(schema: seq<Field>, batches: seq<Batch>): Result<Frame> {
    var f :- NormalizeNumeric(schema, batches);
    Reconcile(f.schema, f.batches)
  }

  lemma {:induction false} AgreeingBatches(schema: seq<Field>, batches: seq<Batch>)
    requires forall k :: 0 <= k < |batches| ==> batches[k].schema == schema
    ensures Reconcile(schema, batches) == Ok(Frame(schema, batches))
  {
  }

  lemma {:induction false} NormalizesToItsScale(schema: seq<Field>, batches: seq<Batch>)
    requires Raw(schema, batches)
    ensures RunQuery(schema, batches) == Ok(Normalized(schema, batches))
  {
    var numeric := NumericColumns(schema);
    var n := Normalized(schema, batches);
    if numeric == {} {
      assert DecimalSchema(schema, batches, numeric) == schema;
      forall k | 0 <= k < |batches| ensures n.batches[k] == batches[k] {
        assert n.batches[k].columns == batches[k].columns;
      }
      assert n.batches == batches;
    }
    assert NormalizeNumeric(schema, batches) == Ok(n);
    AgreeingBatches(n.schema, n.batches);
  }

  // --- the gathered partitions --------------------------------------------------------------------------

  function Concat(parts: seq<seq<Batch>>): seq<Batch> {
    if parts == [] then [] else parts[0] + Concat(parts[1..])
  }

  function Gathered(schema: seq<Field>, parts: seq<seq<Batch>>): seq<Batch> {
    if parts == [] then [] else Normalized(schema, parts[0]).batches + Gathered(schema, parts[1..])
  }

  /** The parallel read: each partition's own query, concatenated in order, reconciled with the first schema. */
  function ReadParts(schema: seq<Field>, parts: seq<seq<Batch>>): Result<seq<Batch>> {
    if parts == [] then Ok([])
    else
      var f :- RunQuery(schema, parts[0]);
      var rest :- ReadParts(schema, parts[1..]);
      Ok(f.batches + rest)
  }

  function FetchParallel(schema: seq<Field>, parts: seq<seq<Batch>>): Result<Frame>
    requires parts != []
  {
    var first :- RunQuery(schema, parts[0]);
    var all :- ReadParts(schema, parts);
    Reconcile(first.schema, all)
  }

  /** A read fails only by a refusal. */
  lemma {:induction false} PartErrors(schema: seq<Field>, parts: seq<seq<Batch>>)
    ensures ReadParts(schema, parts).Err? ==> ReadParts(schema, parts).error == SourceRefused
    ensures parts != [] && FetchParallel(schema, parts).Err? ==> FetchParallel(schema, parts).error == SourceRefused
  {
    if parts != [] {
      PartErrors(schema, parts[1..]);
    }
  }

  ghost predicate AllRaw(schema: seq<Field>, parts: seq<seq<Batch>>) {
    forall p :: 0 <= p < |parts| ==> Raw(schema, parts[p])
  }

  lemma {:induction false} ReadsGathered(schema: seq<Field>, parts: seq<seq<Batch>>)
    requires AllRaw(schema, parts)
    ensures ReadParts(schema, parts) == Ok(Gathered(schema, parts))
  {
    if parts != [] {
      NormalizesToItsScale(schema, parts[0]);
      assert AllRaw(schema, parts[1..]);
      ReadsGathered(schema, parts[1..]);
    }
  }

  /** The partition a batch of the concatenation came from. */
  function PartOf(parts: seq<seq<Batch>>, k: nat): (p: nat)
    requires k < |Concat(parts)|
    ensures p < |parts| && parts[p] != []
  {
    if k < |parts[0]| then 0 else 1 + PartOf(parts[1..], k - |parts[0]|)
  }

  function PartScale(parts: seq<seq<Batch>>, k: nat, i: nat): nat
    requires k < |Concat(parts)|
  {
    ScaleOver(parts[PartOf(parts, k)], i)
  }

  /** Every gathered batch is its raw batch rebuilt at its own partition's scales. */
  lemma {:induction false} GatheredBatch(schema: seq<Field>, parts: seq<seq<Batch>>, k: nat)
    requires k < |Concat(parts)|
    ensures |Gathered(schema, parts)| == |Concat(parts)|
    ensures var p := parts[PartOf(parts, k)];
            && Concat(parts)[k] in p
            && Gathered(schema, parts)[k] ==
                 RebuildBatch(Concat(parts)[k], DecimalSchema(schema, p, NumericColumns(schema)), Scales(p),
                   NumericColumns(schema))
  {
    GatheredLength(schema, parts);
    if k >= |parts[0]| {
      GatheredBatch(schema, parts[1..], k - |parts[0]|);
    }
  }

  lemma {:induction false} GatheredLength(schema: seq<Field>, parts: seq<seq<Batch>>)
    ensures |Gathered(schema, parts)| == |Concat(parts)|
  {
    if parts != [] {
      GatheredLength(schema, parts[1..]);
    }
  }

  lemma {:induction false} RawConcat(schema: seq<Field>, parts: seq<seq<Batch>>)
    requires AllRaw(schema, parts)
    ensures Raw(schema, Concat(parts))
  {
    if parts != [] {
      assert AllRaw(schema, parts[1..]);
      RawConcat(schema, parts[1..]);
      assert Raw(schema, parts[0]);
    }
  }

  /** The scale over all rows is the widest partition scale. */
  lemma {:induction false} PartWithin(parts: seq<seq<Batch>>, p: nat, i: nat)
    requires p < |parts|
    ensures ScaleOver(parts[p], i) <= ScaleOver(Concat(parts), i)
  {
    ScaleOverAppend(parts[0], Concat(parts[1..]), i);
    if p != 0 {
      PartWithin(parts[1..], p - 1, i);
    }
  }

  /** Bounding the scales of the partitions that delivered batches bounds the scale over all rows. */
  lemma {:induction false} ScaleOfParts(parts: seq<seq<Batch>>, i: nat, bound: nat)
    requires forall k :: 0 <= k < |Concat(parts)| ==> PartScale(parts, k, i) <= bound
    ensures ScaleOver(Concat(parts), i) <= bound
  {
    if parts != [] {
      ScaleOverAppend(parts[0], Concat(parts[1..]), i);
      if parts[0] != [] {
        assert PartOf(parts, 0) == 0 && PartScale(parts, 0, i) == ScaleOver(parts[0], i);
      }
      forall k | 0 <= k < |Concat(parts[1..])| ensures PartScale(parts[1..], k, i) <= bound {
        assert PartScale(parts, k + |parts[0]|, i) == PartScale(parts[1..], k, i);
      }
      ScaleOfParts(parts[1..], i, bound);
    }
  }
}
