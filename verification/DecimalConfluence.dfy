/** When normalizing partition by partition gives what normalizing all rows at once gives. */
module DecimalConfluence {
  import opened Outcomes
  import Relations
  import opened Decimals
  import opened DecimalProofs

  function FirstSchema(schema: seq<Field>, parts: seq<seq<Batch>>): seq<Field>
    requires parts != []
  {
    DecimalSchema(schema, parts[0], NumericColumns(schema))
  }

  /** The columns on whose scale some partition disagrees with the first. */
  function Differing(schema: seq<Field>, parts: seq<seq<Batch>>): set<nat>
    requires parts != []
  {
    Disagreements(FirstSchema(schema, parts), Gathered(schema, parts))
  }

  /** Some value that needs the widest scale of all, in the partition that derives it, still fits at it. */
  ghost predicate WidestSurvives(parts: seq<seq<Batch>>, i: nat) {
    var g := ScaleOver(Concat(parts), i);
    g == 0 ||
    exists k: nat, c: nat :: k < |Concat(parts)| && c < |Texts(Concat(parts)[k], i)| &&
                             PartScale(parts, k, i) == g && CastTo(g, Texts(Concat(parts)[k], i)[c]) != Null
  }

  lemma {:induction false} TypeOfGathered(schema: seq<Field>, parts: seq<seq<Batch>>, k: nat, i: nat)
    requires k < |Concat(parts)| && i < |schema|
    ensures k < |Gathered(schema, parts)|
    ensures TypeAt(Gathered(schema, parts)[k].schema, i) ==
              if i in NumericColumns(schema) then Dec(DECIMAL_PRECISION, PartScale(parts, k, i)) else schema[i].dtype
  {
    GatheredBatch(schema, parts, k);
  }

  lemma {:induction false} DifferingIff(schema: seq<Field>, parts: seq<seq<Batch>>, i: nat)
    requires parts != []
    ensures i in Differing(schema, parts) <==>
              i in NumericColumns(schema) &&
              exists k :: 0 <= k < |Concat(parts)| && PartScale(parts, k, i) != ScaleOver(parts[0], i)
  {
    GatheredLength(schema, parts);
    if i < |schema| {
      forall k: nat | k < |Concat(parts)| {
        TypeOfGathered(schema, parts, k, i);
      }
      if i in NumericColumns(schema) &&
         exists k :: 0 <= k < |Concat(parts)| && PartScale(parts, k, i) != ScaleOver(parts[0], i) {
        var k: nat :| k < |Concat(parts)| && PartScale(parts, k, i) != ScaleOver(parts[0], i);
        assert TypeAt(Gathered(schema, parts)[k].schema, i) != FirstSchema(schema, parts)[i].dtype;
      }
    }
  }

  lemma {:induction false} GatheredReconcilable(schema: seq<Field>, parts: seq<seq<Batch>>)
    requires parts != []
    ensures AllReconcilable(FirstSchema(schema, parts), Gathered(schema, parts))
    ensures forall k :: 0 <= k < |Gathered(schema, parts)| ==> |Gathered(schema, parts)[k].schema| == |schema|
  {
    GatheredLength(schema, parts);
    forall k: nat | k < |Gathered(schema, parts)|
      ensures |Gathered(schema, parts)[k].schema| == |schema|
                && Reconcilable(FirstSchema(schema, parts), Gathered(schema, parts)[k])
    {
      GatheredBatch(schema, parts, k);
      forall i: nat | i < |schema| {
        TypeOfGathered(schema, parts, k, i);
      }
    }
  }

  /** A gathered cell read back as text: the raw text cast to its partition's scale. */
  lemma {:induction false} GatheredText(schema: seq<Field>, parts: seq<seq<Batch>>, k: nat, i: nat, c: nat)
    requires AllRaw(schema, parts) && k < |Concat(parts)| && i in NumericColumns(schema)
    requires k < |Gathered(schema, parts)|
    ensures |Texts(Gathered(schema, parts)[k], i)| == |Texts(Concat(parts)[k], i)|
    ensures c < |Texts(Concat(parts)[k], i)| ==>
              var s := PartScale(parts, k, i);
              && Texts(Gathered(schema, parts)[k], i)[c] ==
                   TextOf(Dec(DECIMAL_PRECISION, s), CastTo(s, Texts(Concat(parts)[k], i)[c]))
              && Digits(Texts(Concat(parts)[k], i)[c]) <= s <= MAX_FRACTION
              && Digits(Texts(Gathered(schema, parts)[k], i)[c]) ==
                   if CastTo(s, Texts(Concat(parts)[k], i)[c]) == Null then 0 else s
  {
    RawConcat(schema, parts);
    GatheredBatch(schema, parts, k);
    TypeOfGathered(schema, parts, k, i);
    if c < |Texts(Concat(parts)[k], i)| {
      RawDigits(parts, k, i, c);
      CastDigits(Texts(Concat(parts)[k], i)[c], PartScale(parts, k, i));
    }
  }

  lemma {:induction false} RawDigits(parts: seq<seq<Batch>>, k: nat, i: nat, c: nat)
    requires k < |Concat(parts)| && c < |Texts(Concat(parts)[k], i)|
    ensures Digits(Texts(Concat(parts)[k], i)[c]) <= PartScale(parts, k, i) <= MAX_FRACTION
  {
    PartOfHolds(parts, k, i);
    WidestBounds(Texts(Concat(parts)[k], i), c);
    ScaleAttained(parts[PartOf(parts, k)], i);
  }

  lemma {:induction false} CastDigits(t: Cell, s: nat)
    requires s <= MAX_FRACTION
    ensures Digits(TextOf(Dec(DECIMAL_PRECISION, s), CastTo(s, t))) == if CastTo(s, t) == Null then 0 else s
  {
  }

  /** The scale reconciliation derives from the normalized partitions: the widest that survived. */
  lemma {:induction false} ReconciledScale(schema: seq<Field>, parts: seq<seq<Batch>>, i: nat)
    requires AllRaw(schema, parts) && i in NumericColumns(schema)
    ensures ScaleOver(Gathered(schema, parts), i) <= ScaleOver(Concat(parts), i)
    ensures ScaleOver(Gathered(schema, parts), i) == ScaleOver(Concat(parts), i) <==> WidestSurvives(parts, i)
  {
    GatheredLength(schema, parts);
    ScaleAttained(Gathered(schema, parts), i);
    if ScaleOver(Gathered(schema, parts), i) > 0 {
      var k: nat :| k < |Gathered(schema, parts)|
        && Widest(Texts(Gathered(schema, parts)[k], i)) == ScaleOver(Gathered(schema, parts), i);
      WidestAttained(Texts(Gathered(schema, parts)[k], i));
      var c: nat :| c < |Texts(Gathered(schema, parts)[k], i)| &&
                    Digits(Texts(Gathered(schema, parts)[k], i)[c]) == ScaleOver(Gathered(schema, parts), i);
      SurvivorAt(schema, parts, k, i, c);
    }
    if WidestSurvives(parts, i) && ScaleOver(Concat(parts), i) > 0 {
      var k: nat, c: nat :| k < |Concat(parts)| && c < |Texts(Concat(parts)[k], i)| &&
                            PartScale(parts, k, i) == ScaleOver(Concat(parts), i) &&
                            CastTo(ScaleOver(Concat(parts), i), Texts(Concat(parts)[k], i)[c]) != Null;
      GatheredText(schema, parts, k, i, c);
      WidestBounds(Texts(Gathered(schema, parts)[k], i), c);
      ScaleBounds(Gathered(schema, parts), i, k);
    }
  }

  /** The digits of a gathered cell are at most the scale over all rows, and reach it only by surviving there. */
  lemma {:induction false} SurvivorAt(schema: seq<Field>, parts: seq<seq<Batch>>, k: nat, i: nat, c: nat)
    requires AllRaw(schema, parts) && i in NumericColumns(schema)
    requires k < |Concat(parts)| && k < |Gathered(schema, parts)| && c < |Texts(Gathered(schema, parts)[k], i)|
    ensures var d := Digits(Texts(Gathered(schema, parts)[k], i)[c]);
            && d <= ScaleOver(Concat(parts), i)
            && (d == ScaleOver(Concat(parts), i) ==> WidestSurvives(parts, i))
  {
    GatheredText(schema, parts, k, i, c);
    PartWithin(parts, PartOf(parts, k), i);
    var g := ScaleOver(Concat(parts), i);
    if g > 0 && Digits(Texts(Gathered(schema, parts)[k], i)[c]) == g {
      assert PartScale(parts, k, i) == g && CastTo(g, Texts(Concat(parts)[k], i)[c]) != Null;
    }
  }

  /** Where every partition agrees with the first, the first partition's scale is the scale over all rows. */
  lemma {:induction false} AgreedScale(schema: seq<Field>, parts: seq<seq<Batch>>, i: nat)
    requires parts != [] && i in NumericColumns(schema) && i !in Differing(schema, parts)
    ensures ScaleOver(parts[0], i) == ScaleOver(Concat(parts), i)
    ensures forall k :: 0 <= k < |Concat(parts)| ==> PartScale(parts, k, i) == ScaleOver(Concat(parts), i)
  {
    DifferingIff(schema, parts, i);
    PartWithin(parts, 0, i);
    ScaleOfParts(parts, i, ScaleOver(parts[0], i));
  }

  /** One column of one batch comes out the same either way, once its scale does. */
  lemma {:induction false} SameColumn(schema: seq<Field>, parts: seq<seq<Batch>>, k: nat, i: nat)
    requires AllRaw(schema, parts) && k < |Concat(parts)| && k < |Gathered(schema, parts)|
    requires i in NumericColumns(schema)
    ensures var g := ScaleOver(Concat(parts), i);
            Relations.Map(Caster(g), Texts(Gathered(schema, parts)[k], i)) ==
              Relations.Map(Caster(g), Texts(Concat(parts)[k], i))
  {
    GatheredText(schema, parts, k, i, 0);
    forall c: nat | c < |Texts(Concat(parts)[k], i)|
      ensures CastTo(ScaleOver(Concat(parts), i), Texts(Gathered(schema, parts)[k], i)[c]) ==
                CastTo(ScaleOver(Concat(parts), i), Texts(Concat(parts)[k], i)[c])
    {
      SameCell(schema, parts, k, i, c);
    }
  }

  lemma {:induction false} SameCell(schema: seq<Field>, parts: seq<seq<Batch>>, k: nat, i: nat, c: nat)
    requires AllRaw(schema, parts) && k < |Concat(parts)| && k < |Gathered(schema, parts)|
    requires i in NumericColumns(schema)
    requires c < |Texts(Concat(parts)[k], i)| && c < |Texts(Gathered(schema, parts)[k], i)|
    ensures var g := ScaleOver(Concat(parts), i);
            CastTo(g, Texts(Gathered(schema, parts)[k], i)[c]) == CastTo(g, Texts(Concat(parts)[k], i)[c])
  {
    GatheredText(schema, parts, k, i, c);
    PartScaleWithin(parts, k, i);
    Recast(Concat(parts)[k], i, c, PartScale(parts, k, i), ScaleOver(Concat(parts), i));
  }

  lemma {:induction false} Recast(b: Batch, i: nat, c: nat, s: nat, g: nat)
    requires c < |Texts(b, i)| && Digits(Texts(b, i)[c]) <= s <= g <= MAX_FRACTION
    ensures CastTo(g, TextOf(Dec(DECIMAL_PRECISION, s), CastTo(s, Texts(b, i)[c]))) == CastTo(g, Texts(b, i)[c])
  {
    RecastIsCast(Texts(b, i)[c], DECIMAL_PRECISION, s, g);
  }

  lemma {:induction false} PartScaleWithin(parts: seq<seq<Batch>>, k: nat, i: nat)
    requires k < |Concat(parts)|
    ensures PartScale(parts, k, i) <= ScaleOver(Concat(parts), i) <= MAX_FRACTION
  {
    PartWithin(parts, PartOf(parts, k), i);
    ScaleAttained(Concat(parts), i);
  }

  lemma {:induction false} TextIsText(b: Batch, i: nat, c: nat)
    requires c < |Texts(b, i)|
    ensures Texts(b, i)[c].Null? || Texts(b, i)[c].Numeral?
  {
  }

  /**
   * The scales a text goes through: its digits, its partition's, and, once read back, the reconciled and the widest.
   */
  lemma {:induction false} RecastBounds(schema: seq<Field>, parts: seq<seq<Batch>>, k: nat, i: nat, c: nat)
    requires AllRaw(schema, parts) && i in NumericColumns(schema)
    requires k < |Concat(parts)| && k < |Gathered(schema, parts)| && c < |Texts(Concat(parts)[k], i)|
    ensures c < |Texts(Gathered(schema, parts)[k], i)|
    ensures var text, s := Texts(Concat(parts)[k], i)[c], PartScale(parts, k, i);
            var g, w := ScaleOver(Gathered(schema, parts), i), ScaleOver(Concat(parts), i);
            && Texts(Gathered(schema, parts)[k], i)[c] == TextOf(Dec(DECIMAL_PRECISION, s), CastTo(s, text))
            && Digits(text) <= s <= w <= MAX_FRACTION && g <= w
            && Digits(TextOf(Dec(DECIMAL_PRECISION, s), CastTo(s, text))) <= g
            && (text.Null? || text.Numeral?)
  {
    TextIsText(Concat(parts)[k], i, c);
    GatheredText(schema, parts, k, i, c);
    PartScaleWithin(parts, k, i);
    ReconciledScale(schema, parts, i);
    WidestBounds(Texts(Gathered(schema, parts)[k], i), c);
    ScaleBounds(Gathered(schema, parts), i, k);
  }

  /** Rebuilding the differing columns of the gathered batches, when every widest scale survives. */
  lemma {:induction false} RebuiltIsNormalized(schema: seq<Field>, parts: seq<seq<Batch>>)
    requires parts != [] && AllRaw(schema, parts)
    requires forall i :: i in Differing(schema, parts) ==> WidestSurvives(parts, i)
    ensures DecimalSchema(FirstSchema(schema, parts), Gathered(schema, parts), Differing(schema, parts)) ==
              Normalized(schema, Concat(parts)).schema
    ensures RebuildBatches(Gathered(schema, parts), Normalized(schema, Concat(parts)).schema,
              Scales(Gathered(schema, parts)),
                           Differing(schema, parts)) == Normalized(schema, Concat(parts)).batches
  {
    var numeric, differing := NumericColumns(schema), Differing(schema, parts);
    var gathered, target := Gathered(schema, parts), Normalized(schema, Concat(parts));
    forall i: nat | i in numeric
      ensures i in differing ==> ScaleOver(gathered, i) == ScaleOver(Concat(parts), i)
      ensures i !in differing ==> ScaleOver(parts[0], i) == ScaleOver(Concat(parts), i)
    {
      if i in differing {
        ReconciledScale(schema, parts, i);
      } else {
        AgreedScale(schema, parts, i);
      }
    }
    forall i: nat ensures i in differing ==> i in numeric {
      DifferingIff(schema, parts, i);
    }
    assert DecimalSchema(FirstSchema(schema, parts), gathered, differing) == target.schema;
    GatheredLength(schema, parts);
    forall k: nat | k < |gathered|
      ensures RebuildBatch(gathered[k], target.schema, Scales(gathered), differing) == target.batches[k]
    {
      SameBatch(schema, parts, k);
    }
  }

  lemma {:induction false} SameBatch(schema: seq<Field>, parts: seq<seq<Batch>>, k: nat)
    requires parts != [] && AllRaw(schema, parts) && k < |Concat(parts)| && k < |Gathered(schema, parts)|
    requires forall i :: i in Differing(schema, parts) ==>
               i in NumericColumns(schema) && ScaleOver(Gathered(schema, parts), i) == ScaleOver(Concat(parts), i)
    ensures var target := Normalized(schema, Concat(parts));
            RebuildBatch(Gathered(schema, parts)[k], target.schema, Scales(Gathered(schema, parts)),
              Differing(schema, parts)) ==
              target.batches[k]
  {
    var numeric, differing := NumericColumns(schema), Differing(schema, parts);
    var gathered, target := Gathered(schema, parts), Normalized(schema, Concat(parts));
    GatheredBatch(schema, parts, k);
    var left, right := RebuildBatch(gathered[k], target.schema, Scales(gathered), differing), target.batches[k];
    forall i: nat | i < |left.columns| ensures left.columns[i] == right.columns[i] {
      if i in differing {
        SameColumn(schema, parts, k, i);
      } else if i in numeric {
        AgreedScale(schema, parts, i);
      }
    }
    assert left.columns == right.columns;
  }

  /** A differing column whose widest scale does not survive is reconciled at a narrower one. */
  lemma {:induction false} LostScaleAt(schema: seq<Field>, parts: seq<seq<Batch>>, i: nat)
    requires parts != [] && AllRaw(schema, parts) && i in Differing(schema, parts) && !WidestSurvives(parts, i)
    ensures var split := DecimalSchema(FirstSchema(schema, parts), Gathered(schema, parts), Differing(schema, parts));
            var whole := Normalized(schema, Concat(parts)).schema;
            && i < |split| == |whole| && split[i].dtype.Dec? && whole[i].dtype.Dec?
            && split[i].dtype.scale < whole[i].dtype.scale
  {
    DifferingIff(schema, parts, i);
    ReconciledScale(schema, parts, i);
  }

  /** The schema that reconciliation derives from the gathered batches. */
  function OutSchema(schema: seq<Field>, parts: seq<seq<Batch>>): seq<Field>
    requires parts != []
  {
    DecimalSchema(FirstSchema(schema, parts), Gathered(schema, parts), Differing(schema, parts))
  }

  function OutBatches(schema: seq<Field>, parts: seq<seq<Batch>>, out: seq<Field>): seq<Batch>
    requires parts != []
  {
    RebuildBatches(Gathered(schema, parts), out, Scales(Gathered(schema, parts)), Differing(schema, parts))
  }

  function OutBatch(schema: seq<Field>, parts: seq<seq<Batch>>, out: seq<Field>, k: nat): Batch
    requires parts != [] && k < |Gathered(schema, parts)|
  {
    OutBatches(schema, parts, out)[k]
  }

  /** What the parallel read returns: the gathered batches with the differing columns re-derived. */
  lemma {:induction false} ParallelFrame(schema: seq<Field>, parts: seq<seq<Batch>>)
    requires parts != [] && AllRaw(schema, parts)
    ensures FetchParallel(schema, parts) ==
              Ok(Frame(OutSchema(schema, parts), OutBatches(schema, parts, OutSchema(schema, parts))))
  {
    var gathered, differing, first := Gathered(schema, parts), Differing(schema, parts), FirstSchema(schema, parts);
    NormalizesToItsScale(schema, parts[0]);
    ReadsGathered(schema, parts);
    GatheredReconcilable(schema, parts);
    GatheredLength(schema, parts);
    RawConcat(schema, parts);
    forall k: nat | k < |gathered| ensures RestConforms(first, gathered[k], differing) {
      GatheredBatch(schema, parts, k);
      forall i: nat | i < |first| && i !in differing ensures gathered[k].schema[i].dtype == first[i].dtype {
        assert TypeAt(gathered[k].schema, i) == first[i].dtype;
      }
    }
    if differing == {} {
      UntouchedFrame(schema, parts);
    }
  }

  /** A NUMERIC column on its way through both reads. */
  lemma {:induction false} NumericPath(schema: seq<Field>, parts: seq<seq<Batch>>, k: nat, i: nat)
    requires parts != [] && AllRaw(schema, parts) && i in NumericColumns(schema)
    requires k < |Concat(parts)| && k < |Gathered(schema, parts)|
    ensures var raw, gathered := Concat(parts)[k], Gathered(schema, parts)[k];
            var left := OutBatch(schema, parts, OutSchema(schema, parts), k);
            var right := Normalized(schema, Concat(parts)).batches[k];
            var scale, g, w := PartScale(parts, k, i), ScaleOver(Gathered(schema, parts), i),
              ScaleOver(Concat(parts), i);
            && i < |raw.columns| == |gathered.columns| == |left.columns| == |right.columns|
            && right.columns[i] == Relations.Map(Caster(w), Texts(raw, i))
            && TypeAt(right.schema, i) == Dec(DECIMAL_PRECISION, w)
            && gathered.columns[i] == Relations.Map(Caster(scale), Texts(raw, i))
            && |Texts(gathered, i)| == |Texts(raw, i)|
            && (i !in Differing(schema, parts) ==>
                  scale == w && left.columns[i] == gathered.columns[i]
                    && TypeAt(left.schema, i) == Dec(DECIMAL_PRECISION, scale))
            && (i in Differing(schema, parts) ==>
                  left.columns[i] == Relations.Map(Caster(g), Texts(gathered, i))
                    && TypeAt(left.schema, i) == Dec(DECIMAL_PRECISION, g))
  {
    RawConcat(schema, parts);
    GatheredBatch(schema, parts, k);
    GatheredText(schema, parts, k, i, 0);
    if i !in Differing(schema, parts) {
      AgreedScale(schema, parts, i);
    }
  }

  lemma {:induction false} UntouchedFrame(schema: seq<Field>, parts: seq<seq<Batch>>)
    requires parts != [] && AllRaw(schema, parts) && Differing(schema, parts) == {}
    ensures DecimalSchema(FirstSchema(schema, parts), Gathered(schema, parts), {}) == FirstSchema(schema, parts)
    ensures RebuildBatches(Gathered(schema, parts), FirstSchema(schema, parts), Scales(Gathered(schema, parts)), {}) ==
              Gathered(schema, parts)
  {
    var gathered, first := Gathered(schema, parts), FirstSchema(schema, parts);
    GatheredLength(schema, parts);
    forall k: nat | k < |gathered| ensures RebuildBatch(gathered[k], first, Scales(gathered), {}) == gathered[k] {
      GatheredBatch(schema, parts, k);
      assert RebuildBatch(gathered[k], first, Scales(gathered), {}).columns == gathered[k].columns;
      var p := parts[PartOf(parts, k)];
      forall i: nat | i < |schema| && i in NumericColumns(schema) ensures ScaleOver(p, i) == ScaleOver(parts[0], i) {
        DifferingIff(schema, parts, i);
        assert PartScale(parts, k, i) == ScaleOver(p, i);
      }
      assert DecimalSchema(schema, p, NumericColumns(schema)) == first;
    }
  }

  /**
   * For every split, including empty, all-NULL and integral-only partitions: the parallel read gives the same column
   * types and the same cells as one read of all rows, if and only if the widest scale of every column the partitions
   * differ on is carried by a value that fits the precision at that scale.
   */
  lemma {:induction false} ConfluentIff(schema: seq<Field>, parts: seq<seq<Batch>>)
    requires parts != [] && AllRaw(schema, parts)
    ensures FetchParallel(schema, parts) == RunQuery(schema, Concat(parts)) <==>
              forall i :: i in Differing(schema, parts) ==> WidestSurvives(parts, i)
  {
    RawConcat(schema, parts);
    NormalizesToItsScale(schema, Concat(parts));
    ParallelFrame(schema, parts);
    if forall i :: i in Differing(schema, parts) ==> WidestSurvives(parts, i) {
      RebuiltIsNormalized(schema, parts);
    } else {
      var i :| i in Differing(schema, parts) && !WidestSurvives(parts, i);
      LostScaleAt(schema, parts, i);
    }
  }

  predicate FittingNumeral(t: Cell, g: nat) {
    t.Numeral? && t.frac <= MAX_FRACTION && Fits(Rescale(t.unscaled, t.frac, g))
  }

  /** Every numeral has at most 37 fractional digits and fits the precision at the scale of its column. */
  ghost predicate AllFit(schema: seq<Field>, batches: seq<Batch>) {
    forall k: nat, i: nat, c: nat :: k < |batches| && i in NumericColumns(schema) && c < |Texts(batches[k], i)| ==>
      Texts(batches[k], i)[c].Numeral? ==> FittingNumeral(Texts(batches[k], i)[c], ScaleOver(batches, i))
  }

  /** Values that fit are confluent for every split. */
  lemma {:induction false} FittingPartitionsAreConfluent(schema: seq<Field>, parts: seq<seq<Batch>>)
    requires parts != [] && AllRaw(schema, parts) && AllFit(schema, Concat(parts))
    ensures FetchParallel(schema, parts) == RunQuery(schema, Concat(parts))
  {
    FittingCasts(schema, Concat(parts));
    CastsAreConfluent(schema, parts);
  }

  /** No numeral is lost at the scale of its column. */
  ghost predicate AllCast(schema: seq<Field>, batches: seq<Batch>) {
    forall k: nat, i: nat, c: nat :: k < |batches| && i in NumericColumns(schema) && c < |Texts(batches[k], i)| ==>
      Texts(batches[k], i)[c].Numeral? ==> CastTo(ScaleOver(batches, i), Texts(batches[k], i)[c]) != Null
  }

  lemma {:induction false} FittingCasts(schema: seq<Field>, batches: seq<Batch>)
    requires AllFit(schema, batches)
    ensures AllCast(schema, batches)
  {
    forall k: nat, i: nat, c: nat | k < |batches| && i in NumericColumns(schema) && c < |Texts(batches[k], i)|
      ensures Texts(batches[k], i)[c].Numeral? ==> CastTo(ScaleOver(batches, i), Texts(batches[k], i)[c]) != Null
    {
      CastsWhenFitting(Texts(batches[k], i)[c], ScaleOver(batches, i));
    }
  }

  lemma {:induction false} CastsWhenFitting(t: Cell, g: nat)
    ensures t.Numeral? && FittingNumeral(t, g) ==> CastTo(g, t) != Null
  {
  }

  /** Values that are not lost, rounded or not, are confluent for every split. */
  lemma {:induction false} CastsAreConfluent(schema: seq<Field>, parts: seq<seq<Batch>>)
    requires parts != [] && AllRaw(schema, parts) && AllCast(schema, Concat(parts))
    ensures FetchParallel(schema, parts) == RunQuery(schema, Concat(parts))
    ensures forall i :: i in Differing(schema, parts) ==> WidestSurvives(parts, i)
  {
    forall i | i in Differing(schema, parts) ensures WidestSurvives(parts, i) {
      DifferingIff(schema, parts, i);
      CastSurvives(schema, parts, i);
    }
    ConfluentIff(schema, parts);
  }

  lemma {:induction false} CastSurvives(schema: seq<Field>, parts: seq<seq<Batch>>, i: nat)
    requires AllCast(schema, Concat(parts)) && i in NumericColumns(schema)
    ensures WidestSurvives(parts, i)
  {
    var g := ScaleOver(Concat(parts), i);
    if g > 0 {
      var k, c := WidestCell(Concat(parts), i);
      RawDigits(parts, k, i, c);
      PartScaleWithin(parts, k, i);
    }
  }

  /** Some value has exactly the digits that give its column its scale. */
  lemma {:induction false} WidestCell(batches: seq<Batch>, i: nat) returns (k: nat, c: nat)
    requires ScaleOver(batches, i) > 0
    ensures k < |batches| && c < |Texts(batches[k], i)| && Digits(Texts(batches[k], i)[c]) == ScaleOver(batches, i)
  {
    ScaleAttained(batches, i);
    k :| k < |batches| && Widest(Texts(batches[k], i)) == ScaleOver(batches, i);
    WidestAttained(Texts(batches[k], i));
    c :| c < |Texts(batches[k], i)| && Digits(Texts(batches[k], i)[c]) == Widest(Texts(batches[k], i));
  }

  lemma {:induction false} PartOfHolds(parts: seq<seq<Batch>>, k: nat, i: nat)
    requires k < |Concat(parts)|
    ensures Widest(Texts(Concat(parts)[k], i)) <= PartScale(parts, k, i)
  {
    if k < |parts[0]| {
      ScaleBounds(parts[0], i, k);
    } else {
      PartOfHolds(parts[1..], k - |parts[0]|, i);
    }
  }

  /** A cell holds a text's exact value at a scale at least as wide as its fraction; NULL stays NULL. */
  ghost predicate ExactAt(t: Cell, g: nat, c: Cell) {
    && (t.Numeral? ==> t.frac <= g && c == Decimal(t.unscaled * Pow10(g - t.frac)))
    && (t.Null? ==> c == Null)
  }

  /** Nothing is rounded away: a fitting numeral keeps its exact value at its column's scale. */
  lemma {:induction false} FittingCellsAreExact(schema: seq<Field>, batches: seq<Batch>, k: nat, i: nat, c: nat)
    requires Raw(schema, batches) && AllFit(schema, batches)
    requires k < |batches| && i in NumericColumns(schema) && c < |Column(batches[k], i)|
    ensures var out := Normalized(schema, batches);
            && out.schema[i].dtype == Dec(DECIMAL_PRECISION, ScaleOver(batches, i))
            && c < |Column(out.batches[k], i)|
            && ExactAt(Texts(batches[k], i)[c], ScaleOver(batches, i), Column(out.batches[k], i)[c])
  {
    ScaleBounds(batches, i, k);
    WidestBounds(Texts(batches[k], i), c);
    NormalizedCell(schema, batches, k, i, c);
    FittingCast(Texts(batches[k], i)[c], ScaleOver(batches, i));
  }

  lemma {:induction false} FittingCast(t: Cell, g: nat)
    requires Digits(t) <= g
    requires t.Numeral? ==> FittingNumeral(t, g)
    ensures ExactAt(t, g, CastTo(g, t))
  {
  }

  lemma {:induction false} NormalizedCell(schema: seq<Field>, batches: seq<Batch>, k: nat, i: nat, c: nat)
    requires Raw(schema, batches)
    requires k < |batches| && i in NumericColumns(schema) && c < |Column(batches[k], i)|
    ensures var out := Normalized(schema, batches);
            && out.schema[i].dtype == Dec(DECIMAL_PRECISION, ScaleOver(batches, i))
            && c < |Column(out.batches[k], i)|
            && Column(out.batches[k], i)[c] == CastTo(ScaleOver(batches, i), Texts(batches[k], i)[c])
  {
    RebuiltCell(batches[k], Normalized(schema, batches).schema, batches, NumericColumns(schema), i, c);
  }

  /**
   * Without the fit the split can show: a value too wide for its own scale disappears in its partition, and with it
   * the scale it would have forced on the others.
   */
  lemma {:induction false} OverflowIsNotConfluent(schema: seq<Field>, parts: seq<seq<Batch>>, u: int)
    requires schema == [Field("n", Utf8, Some("numeric"))] && !Fits(u)
    requires parts == [[Batch(schema, [[Numeral(1, 0)]])], [Batch(schema, [[Numeral(u, 1)]])]]
    ensures FetchParallel(schema, parts) != RunQuery(schema, Concat(parts))
  {
    OverflowScales(schema, parts[0], parts[1], u);
    OverflowIsLost(schema, parts[0], parts[1], u);
    assert Raw(schema, parts[0]) && Raw(schema, parts[1]);
    ConfluentIff(schema, parts);
  }

  lemma {:induction false} OverflowScales(schema: seq<Field>, a: seq<Batch>, b: seq<Batch>, u: int)
    requires schema == [Field("n", Utf8, Some("numeric"))]
    requires a == [Batch(schema, [[Numeral(1, 0)]])] && b == [Batch(schema, [[Numeral(u, 1)]])]
    ensures 0 in Differing(schema, [a, b])
  {
    TwoParts(a, b);
    OneCell(a, Numeral(1, 0));
    OneCell(b, Numeral(u, 1));
    DifferingIff(schema, [a, b], 0);
    assert 0 in NumericColumns(schema);
    assert PartScale([a, b], 1, 0) == ScaleOver(b, 0) == 1;
    assert ScaleOver([a, b][0], 0) == 0;
  }

  lemma {:induction false} OverflowIsLost(schema: seq<Field>, a: seq<Batch>, b: seq<Batch>, u: int)
    requires a == [Batch(schema, [[Numeral(1, 0)]])] && b == [Batch(schema, [[Numeral(u, 1)]])] && !Fits(u)
    ensures !WidestSurvives([a, b], 0)
  {
    TwoParts(a, b);
    OneCell(a, Numeral(1, 0));
    OneCell(b, Numeral(u, 1));
    assert PartScale([a, b], 0, 0) == 0 && PartScale([a, b], 1, 0) == 1;
    assert CastTo(1, Numeral(u, 1)) == Null by {
      assert Pow10(0) == 1;
    }
  }

  lemma {:induction false} TwoParts(a: seq<Batch>, b: seq<Batch>)
    requires |a| == 1 && |b| == 1
    ensures Concat([a, b]) == [a[0], b[0]]
    ensures PartOf([a, b], 0) == 0 && PartOf([a, b], 1) == 1
    ensures forall i :: ScaleOver([a[0], b[0]], i) == Max(ScaleOver(a, i), ScaleOver(b, i))
  {
    assert [a, b][1..] == [b] && [b][1..] == [];
    assert Concat([b]) == b + [] == b;
    forall i ensures ScaleOver([a[0], b[0]], i) == Max(ScaleOver(a, i), ScaleOver(b, i)) {
      assert a + b == [a[0], b[0]];
      ScaleOverAppend(a, b, i);
    }
  }

  lemma {:induction false} OneCell(batches: seq<Batch>, t: Cell)
    requires |batches| == 1 && batches[0].columns == [[t]] && (t.Numeral? && t.frac <= 1)
    ensures Texts(batches[0], 0) == [t] && ScaleOver(batches, 0) == t.frac
  {
    var texts := Texts(batches[0], 0);
    assert batches[..0] == [] && texts[..0] == [];
    assert texts == [t];
    assert Widest(texts) == t.frac;
    assert ScaleOver(batches, 0) == Max(ScaleOver(batches[..0], 0), Widest(texts));
  }

  // --- reconciliation on its own ----------------------------------------------------------------------

  /** A reconciled frame has one true schema: every batch's column types are the returned ones. */
  lemma {:induction false} ReconciledTypesAgree(schema: seq<Field>, batches: seq<Batch>)
    requires forall k :: 0 <= k < |batches| ==> |batches[k].schema| == |schema|
    ensures Reconcile(schema, batches).Ok? ==>
              var f := Reconcile(schema, batches).value;
              && |f.schema| == |schema| && |f.batches| == |batches|
              && (forall k, i :: 0 <= k < |f.batches| && 0 <= i < |f.schema| ==>
                   TypeAt(f.batches[k].schema, i) == f.schema[i].dtype)
              && Reconcile(f.schema, f.batches) == Ok(f)
  {
    if Reconcile(schema, batches).Err? {
      return;
    }
    var f := Reconcile(schema, batches).value;
    if Disagreements(schema, batches) == {} {
      forall k: nat, i: nat | k < |f.batches| && i < |f.schema|
        ensures TypeAt(f.batches[k].schema, i) == f.schema[i].dtype
      {
        assert i !in Disagreements(schema, batches);
      }
    } else {
      AgreeingBatches(f.schema, f.batches);
    }
  }

  /** One read's frame has one true schema, whatever types the driver delivered its batches at. */
  lemma {:induction false} ExecutedTypesAgree(schema: seq<Field>, batches: seq<Batch>)
    requires forall k :: 0 <= k < |batches| ==> |batches[k].schema| == |schema|
    ensures RunQuery(schema, batches).Ok? ==>
              var f := RunQuery(schema, batches).value;
              && |f.schema| == |schema| && |f.batches| == |batches|
              && forall k, i :: 0 <= k < |f.batches| && 0 <= i < |f.schema| ==>
                   TypeAt(f.batches[k].schema, i) == f.schema[i].dtype
  {
    var n := NormalizeNumeric(schema, batches);
    if n.Ok? {
      assert |n.value.schema| == |schema| && |n.value.batches| == |batches|;
      assert forall k :: 0 <= k < |batches| ==> |n.value.batches[k].schema| == |schema|;
      ReconciledTypesAgree(n.value.schema, n.value.batches);
    }
  }

  /** A column no batch disagrees on keeps its type and its cells. */
  lemma {:induction false} AgreedColumnsAreUntouched(schema: seq<Field>, batches: seq<Batch>, i: nat)
    requires i < |schema| && i !in Disagreements(schema, batches)
    ensures Reconcile(schema, batches).Ok? ==>
              var f := Reconcile(schema, batches).value;
              && f.schema[i] == schema[i]
              && |f.batches| == |batches|
              && forall k :: 0 <= k < |batches| ==> Column(f.batches[k], i) == Column(batches[k], i)
  {
  }

  /** A decimal cell keeps its exact value at the widest scale observed, when it fits there. */
  lemma {:induction false} ReconciledCellsAreExact(schema: seq<Field>, batches: seq<Batch>, k: nat, i: nat, c: nat)
    requires i in Disagreements(schema, batches)
    requires k < |batches| && c < |Column(batches[k], i)|
    requires Texts(batches[k], i)[c].Numeral? ==> FittingNumeral(Texts(batches[k], i)[c], ScaleOver(batches, i))
    ensures Reconcile(schema, batches).Ok? ==>
              var f := Reconcile(schema, batches).value;
              && i < |f.schema| && f.schema[i].dtype == Dec(DECIMAL_PRECISION, ScaleOver(batches, i))
              && k < |f.batches| && c < |Column(f.batches[k], i)|
              && ExactAt(Texts(batches[k], i)[c], ScaleOver(batches, i), Column(f.batches[k], i)[c])
  {
    if Reconcile(schema, batches).Err? {
      return;
    }
    ScaleBounds(batches, i, k);
    WidestBounds(Texts(batches[k], i), c);
    ReconciledColumn(schema, batches, k, i);
    RebuiltCell(batches[k], Reconcile(schema, batches).value.schema, batches, Disagreements(schema, batches), i, c);
    FittingCast(Texts(batches[k], i)[c], ScaleOver(batches, i));
  }

  lemma {:induction false} ReconciledColumn(schema: seq<Field>, batches: seq<Batch>, k: nat, i: nat)
    requires Reconcile(schema, batches).Ok? && i in Disagreements(schema, batches) && k < |batches|
    ensures var f := Reconcile(schema, batches).value;
            && i < |f.schema| && f.schema[i].dtype == Dec(DECIMAL_PRECISION, ScaleOver(batches, i)) && k < |f.batches|
            && f.batches[k] == RebuildBatch(batches[k], f.schema, Scales(batches), Disagreements(schema, batches))
  {
  }

  lemma {:induction false} RebuiltCell(b: Batch, schema: seq<Field>, batches: seq<Batch>, columns: set<nat>, i: nat,
                                       c: nat)
    requires i in columns && c < |Column(b, i)|
    ensures var out := RebuildBatch(b, schema, Scales(batches), columns);
            && c < |Column(out, i)|
            && Column(out, i)[c] == CastTo(ScaleOver(batches, i), Texts(b, i)[c])
  {
  }
}
