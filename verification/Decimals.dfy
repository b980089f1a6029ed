/** Postgres NUMERIC columns as exact decimals: deriving scales from values, and reconciling partitions. */
module Decimals {
  import opened Outcomes
  import Relations

  const DECIMAL_PRECISION: nat := 38
  const MAX_FRACTION: nat := 37

  datatype DType = Dec(precision: nat, scale: nat) | Utf8 | Plain(dtype: Relations.DataType)

  /** A column's description; `typname` is the driver's Postgres type name, when it reports one. */
  datatype Field = Field(name: string, dtype: DType, typname: Option<string>)

  /** A numeral has `frac` digits after its point; a decimal's scale is in its column's type. */
  datatype Cell = Null | Numeral(unscaled: int, frac: nat) | Decimal(unscaled: int) | Other(v: Relations.Value)

  datatype Batch = Batch(schema: seq<Field>, columns: seq<seq<Cell>>)

  datatype Frame = Frame(schema: seq<Field>, batches: seq<Batch>)

  function Pow10(n: nat): (p: nat)
    ensures p > 0
  {
    if n == 0 then 1 else 10 * Pow10(n - 1)
  }

  lemma {:induction false} Pow10Adds(a: nat, b: nat)
    ensures Pow10(a + b) == Pow10(a) * Pow10(b)
  {
    if a != 0 {
      Pow10Adds(a - 1, b);
    }
  }

  function Abs(x: int): nat {
    if x < 0 then -x else x
  }

  /** Division rounding halves away from zero. */
  function RoundDiv(x: int, d: nat): int
    requires d > 0
  {
    var q := (Abs(x) + d / 2) / d;
    if x < 0 then -q else q
  }

  /** A quotient is rounded to the nearest integer, and a half away from zero. */
  lemma {:induction false} RoundsToNearest(x: int, d: nat)
    requires d > 0
    ensures x >= 0 ==> -(d as int) <= 2 * (x - RoundDiv(x, d) * d) < d
    ensures x < 0 ==> -(d as int) < 2 * (x - RoundDiv(x, d) * d) <= d
  {
    var a, q := Abs(x), (Abs(x) + d / 2) / d;
    assert a + d / 2 == q * d + (a + d / 2) % d;
    assert (-q) * d == -(q * d);
  }

  /** The unscaled value of a numeral at another scale. */
  function Rescale(unscaled: int, frac: nat, scale: nat): int {
    if frac <= scale then unscaled * Pow10(scale - frac) else RoundDiv(unscaled, Pow10(frac - scale))
  }

  predicate Fits(unscaled: int) {
    Abs(unscaled) < Pow10(DECIMAL_PRECISION)
  }

  /** The text of a cell of a column of the given type. */
  function TextOf(dtype: DType, c: Cell): Cell {
    match c
    case Decimal(u) => Numeral(u, if dtype.Dec? then dtype.scale else 0)
    case Other(v) => if v.Int? then Numeral(v.i, 0) else Null
    case _ => c
  }

  /** Casting text to a decimal; a value past the precision becomes NULL. */
  function CastTo(scale: nat, text: Cell): Cell {
    if !text.Numeral? then Null
    else if Fits(Rescale(text.unscaled, text.frac, scale)) then Decimal(Rescale(text.unscaled, text.frac, scale))
    else Null
  }

  function Max(a: nat, b: nat): nat {
    if a < b then b else a
  }

  function Digits(text: Cell): nat {
    if text.Numeral? then (if text.frac < MAX_FRACTION then text.frac else MAX_FRACTION) else 0
  }

  /** The widest number of digits after the point. */
  function Widest(texts: seq<Cell>): nat {
    if texts == [] then 0 else Max(Widest(texts[..|texts| - 1]), Digits(texts[|texts| - 1]))
  }

  function Column(b: Batch, i: nat): seq<Cell> {
    if i < |b.columns| then b.columns[i] else []
  }

  function TypeAt(schema: seq<Field>, i: nat): DType {
    if i < |schema| then schema[i].dtype else Plain(Relations.OtherType(""))
  }

  /** A column's cells as text. */
  function Texts(b: Batch, i: nat): seq<Cell> {
    Relations.Map((c: Cell) => TextOf(TypeAt(b.schema, i), c), Column(b, i))
  }

  /** The scale a column needs over every batch. */
  function ScaleOver(batches: seq<Batch>, i: nat): nat {
    if batches == [] then 0 else Max(ScaleOver(batches[..|batches| - 1], i), Widest(Texts(batches[|batches| - 1], i)))
  }

  /** The schema with the given columns re-typed to their derived scale. */
  function DecimalSchema(schema: seq<Field>, batches: seq<Batch>, columns: set<nat>): (out: seq<Field>)
    ensures |out| == |schema|
    ensures forall i :: 0 <= i < |schema| ==>
              out[i] == if i in columns then Field(schema[i].name, Dec(DECIMAL_PRECISION, ScaleOver(batches, i)), None)
                else schema[i]
  {
    seq(|schema|, i requires 0 <= i < |schema| =>
      if i in columns then Field(schema[i].name, Dec(DECIMAL_PRECISION, ScaleOver(batches, i)), None) else schema[i])
  }

  function RebuildBatch(b: Batch, schema: seq<Field>, scale: nat -> nat, columns: set<nat>): (out: Batch)
    ensures out.schema == schema && |out.columns| == |b.columns|
    ensures forall i :: 0 <= i < |b.columns| ==>
              out.columns[i] == if i in columns then Relations.Map(Caster(scale(i)), Texts(b, i)) else b.columns[i]
  {
    Batch(schema, seq(|b.columns|, i requires 0 <= i < |b.columns| =>
      if i in columns then Relations.Map(Caster(scale(i)), Texts(b, i)) else b.columns[i]))
  }

  function Caster(scale: nat): Cell -> Cell {
    (t: Cell) => CastTo(scale, t)
  }

  /** The columns that are not re-derived already have the schema's types. */
  predicate RestConforms(schema: seq<Field>, b: Batch, columns: set<nat>) {
    && |b.columns| == |b.schema| == |schema|
    && forall i :: 0 <= i < |schema| && i !in columns ==> b.schema[i].dtype == schema[i].dtype
  }

  function Scales(batches: seq<Batch>): nat -> nat {
    (i: nat) => ScaleOver(batches, i)
  }

  predicate AllRestConform(schema: seq<Field>, batches: seq<Batch>, columns: set<nat>) {
    forall k :: 0 <= k < |batches| ==> RestConforms(schema, batches[k], columns)
  }

  function RebuildBatches(batches: seq<Batch>, schema: seq<Field>, scale: nat -> nat,
                          columns: set<nat>): (out: seq<Batch>)
    ensures |out| == |batches|
    ensures forall k :: 0 <= k < |batches| ==> out[k] == RebuildBatch(batches[k], schema, scale, columns)
  {
    seq(|batches|, k requires 0 <= k < |batches| => RebuildBatch(batches[k], schema, scale, columns))
  }

  /** Re-derive columns as decimals through text, and rebuild every batch under the one schema. */
  function Rebuild(schema: seq<Field>, batches: seq<Batch>, columns: set<nat>): Result<Frame> {
    if AllRestConform(schema, batches, columns) then
      var out := DecimalSchema(schema, batches, columns);
      Ok(Frame(out, RebuildBatches(batches, out, Scales(batches), columns)))
    else Err(SourceRefused)
  }

  predicate NumericName(f: Field) {
    f.typname == Some("numeric") || f.typname == Some("decimal")
  }

  function NumericColumns(schema: seq<Field>): set<nat> {
    set i: nat | i < |schema| && NumericName(schema[i]) :: i
  }

  function NormalizeNumeric(schema: seq<Field>, batches: seq<Batch>): Result<Frame> {
    if NumericColumns(schema) == {} then Ok(Frame(schema, batches))
    else Rebuild(schema, batches, NumericColumns(schema))
  }

  /** The columns on whose type some batch disagrees with the schema. */
  function Disagreements(schema: seq<Field>, batches: seq<Batch>): set<nat> {
    set i: nat, k: nat | i < |schema| && k < |batches| && TypeAt(batches[k].schema, i) != schema[i].dtype :: i
  }

  /** A disagreement of two decimal types can be reconciled. */
  predicate Reconcilable(schema: seq<Field>, b: Batch) {
    && |b.schema| >= |schema|
    && forall i :: 0 <= i < |schema| && b.schema[i].dtype != schema[i].dtype ==>
         b.schema[i].dtype.Dec? && schema[i].dtype.Dec?
  }

  predicate AllReconcilable(schema: seq<Field>, batches: seq<Batch>) {
    forall k :: 0 <= k < |batches| ==> Reconcilable(schema, batches[k])
  }

  /** Make the reported schema agree with the batches, or refuse. */
  function Reconcile(schema: seq<Field>, batches: seq<Batch>): Result<Frame> {
    if !AllReconcilable(schema, batches) then Err(SourceRefused)
    else if Disagreements(schema, batches) == {} then Ok(Frame(schema, batches))
    else Rebuild(schema, batches, Disagreements(schema, batches))
  }

  /** The limits in numbers: up to 38 digits fit, and at most 37 of them are kept after the point. */
  lemma {:induction false} LimitsInNumbers(unscaled: int, frac: nat)
    ensures Fits(unscaled) <==>
              -100_000_000_000_000_000_000_000_000_000_000_000_000 < unscaled
              < 100_000_000_000_000_000_000_000_000_000_000_000_000
    ensures Digits(Numeral(unscaled, frac)) == if frac <= 37 then frac else 37
  {
    TenToThe19();
    Pow10Adds(19, 19);
  }

  lemma {:induction false} TenToThe19()
    ensures Pow10(19) == 10_000_000_000_000_000_000
  {
    Pow10Adds(5, 5);
    Pow10Adds(9, 10);
    Pow10Adds(5, 4);
    assert Pow10(4) == 10_000 && Pow10(5) == 100_000;
  }

  /** The columns that a read re-derives are those that the driver names numeric or decimal. */
  lemma {:induction false} NumericNames(schema: seq<Field>, i: nat)
    ensures i in NumericColumns(schema) <==>
              i < |schema| && schema[i].typname.Some? && schema[i].typname.value in ["numeric", "decimal"]
  {
  }

  /** An integer cast to a scale keeps its value, or is lost past the precision. */
  lemma {:induction false} IntegersCast(dtype: DType, u: int, scale: nat)
    ensures CastTo(scale, TextOf(dtype, Other(Relations.Int(u)))) ==
              if Fits(u * Pow10(scale)) then Decimal(u * Pow10(scale)) else Null
  {
  }

  /** Columns are re-derived exactly where each batch has all of them and the types of the others. */
  lemma {:induction false} RebuildsIff(schema: seq<Field>, batches: seq<Batch>, columns: set<nat>)
    ensures Rebuild(schema, batches, columns).Ok? <==>
              forall k :: 0 <= k < |batches| ==>
                            && |batches[k].columns| == |schema| && |batches[k].schema| == |schema|
                            && forall i: nat :: i < |schema| && i !in columns ==>
                                                  batches[k].schema[i].dtype == schema[i].dtype
    ensures Rebuild(schema, batches, columns).Err? ==> Rebuild(schema, batches, columns) == Err(SourceRefused)
  {
    forall k | 0 <= k < |batches|
      ensures RestConforms(schema, batches[k], columns) <==>
                && |batches[k].columns| == |schema| && |batches[k].schema| == |schema|
                && forall i: nat :: i < |schema| && i !in columns ==> batches[k].schema[i].dtype == schema[i].dtype
    {
    }
  }

  /** Batches are reconciled exactly where they differ from the reported schema in decimal types only. */
  lemma {:induction false} ReconcilesIff(schema: seq<Field>, batches: seq<Batch>)
    requires forall k :: 0 <= k < |batches| ==>
               |batches[k].columns| == |schema| && |batches[k].schema| == |schema|
    ensures Reconcile(schema, batches).Ok? <==>
              forall k, i :: 0 <= k < |batches| && 0 <= i < |schema| ==>
                batches[k].schema[i].dtype == schema[i].dtype
                || (batches[k].schema[i].dtype.Dec? && schema[i].dtype.Dec?)
    ensures Reconcile(schema, batches).Err? ==> Reconcile(schema, batches) == Err(SourceRefused)
  {
    RebuildsIff(schema, batches, Disagreements(schema, batches));
    forall k | 0 <= k < |batches|
      ensures Reconcilable(schema, batches[k]) <==>
                forall i :: 0 <= i < |schema| ==>
                  batches[k].schema[i].dtype == schema[i].dtype
                  || (batches[k].schema[i].dtype.Dec? && schema[i].dtype.Dec?)
    {
    }
    forall k, i: nat | 0 <= k < |batches| && i < |schema| && i !in Disagreements(schema, batches)
      ensures batches[k].schema[i].dtype == schema[i].dtype
    {
      assert TypeAt(batches[k].schema, i) == batches[k].schema[i].dtype;
    }
  }

  /**
   * A re-derived column is a decimal of 38 digits at the widest scale of its values, capped at 37, and no longer named
   * numeric.
   */
  lemma {:induction false} DerivedType(schema: seq<Field>, batches: seq<Batch>, columns: set<nat>, i: nat)
    requires i < |schema| && i in columns
    ensures DecimalSchema(schema, batches, columns)[i] == Field(schema[i].name, Dec(38, ScaleOver(batches, i)), None)
    ensures ScaleOver(batches, i) <= 37
  {
    ScaleCapped(batches, i);
  }

  lemma {:induction false} ScaleCapped(batches: seq<Batch>, i: nat)
    ensures ScaleOver(batches, i) <= 37
  {
    if batches != [] {
      ScaleCapped(batches[..|batches| - 1], i);
      WidestCapped(Texts(batches[|batches| - 1], i));
    }
  }

  lemma {:induction false} WidestCapped(texts: seq<Cell>)
    ensures Widest(texts) <= 37
  {
    if texts != [] {
      WidestCapped(texts[..|texts| - 1]);
    }
  }

  // --- the loops ------------------------------------------------------------------------------------

  function ToSet(columns: seq<nat>): set<nat> {
    set i | i in columns
  }

  method MaxFractionalDigits(values: seq<Cell>) returns (widest: nat)
    ensures widest == Widest(values)
  {
    widest := 0;
    for row := 0 to |values|
      invariant widest == Widest(values[..row])
    {
      assert values[..row + 1][..row] == values[..row];
      if values[row].Numeral? && 0 < values[row].frac {
        var frac := if values[row].frac < MAX_FRACTION then values[row].frac else MAX_FRACTION;
        widest := Max(widest, frac);
      }
    }
    assert values[..|values|] == values;
  }

  /** A recorded scale, widened to what one batch needs. */
  function Widened(b: Batch, scales: map<nat, nat>, i: nat): nat
    requires i in scales
  {
    Max(scales[i], Widest(Texts(b, i)))
  }

  /** The recorded scales, those of the given columns widened to what one batch needs. */
  function WidenedIn(b: Batch, scales: map<nat, nat>, columns: set<nat>): map<nat, nat> {
    map i | i in scales :: if i in columns then Widened(b, scales, i) else scales[i]
  }

  lemma {:induction false} WidenNext(b: Batch, scales: map<nat, nat>, numeric: seq<nat>, n: nat)
    requires n < |numeric| && numeric[n] in scales
    ensures var wider, i := WidenedIn(b, scales, ToSet(numeric[..n])), numeric[n];
            wider[i := Max(wider[i], Widest(Texts(b, i)))] == WidenedIn(b, scales, ToSet(numeric[..n + 1]))
  {
    assert numeric[..n + 1] == numeric[..n] + [numeric[n]];
  }

  /** Widen the recorded scales by one batch's values. */
  method WidenScales(numeric: seq<nat>, b: Batch, scales: map<nat, nat>) returns (wider: map<nat, nat>)
    requires forall i :: i in numeric ==> i in scales
    ensures wider.Keys == scales.Keys
    ensures forall i :: i in scales ==> wider[i] == if i in numeric then Widened(b, scales, i) else scales[i]
  {
    wider := scales;
    for n := 0 to |numeric|
      invariant wider == WidenedIn(b, scales, ToSet(numeric[..n]))
    {
      WidenNext(b, scales, numeric, n);
      var observed := MaxFractionalDigits(Texts(b, numeric[n]));
      wider := wider[numeric[n] := Max(wider[numeric[n]], observed)];
    }
    assert numeric[..|numeric|] == numeric;
  }

  /** The widest scale of each column over every batch. */
  method DecimalScales(numeric: seq<nat>, batches: seq<Batch>) returns (scales: map<nat, nat>)
    ensures scales.Keys == ToSet(numeric)
    ensures forall i :: i in scales ==> scales[i] == ScaleOver(batches, i)
  {
    scales := map i | i in numeric :: 0;
    for k := 0 to |batches|
      invariant scales.Keys == ToSet(numeric)
      invariant forall i :: i in scales ==> scales[i] == ScaleOver(batches[..k], i)
    {
      assert batches[..k + 1][..k] == batches[..k];
      scales := WidenScales(numeric, batches[k], scales);
    }
    assert batches[..|batches|] == batches;
  }

  /** Record, once each, the columns where a batch disagrees on a decimal type; refuse any other disagreement. */
  method CollectDecimalDisagreements(schema: seq<Field>, b: Batch, found: seq<nat>) returns (ok: bool,
                                     decimals: seq<nat>)
    requires |schema| <= |b.schema|
    ensures ok == Reconcilable(schema, b)
    ensures ok ==> forall i: nat :: i in decimals <==>
              i in found || (i < |schema| && b.schema[i].dtype != schema[i].dtype)
  {
    decimals := found;
    for index := 0 to |schema|
      invariant forall i: nat :: i in decimals <==> i in found || (i < index && b.schema[i].dtype != schema[i].dtype)
      invariant forall i :: 0 <= i < index && b.schema[i].dtype != schema[i].dtype ==>
                  b.schema[i].dtype.Dec? && schema[i].dtype.Dec?
    {
      if b.schema[index].dtype != schema[index].dtype {
        if !(b.schema[index].dtype.Dec? && schema[index].dtype.Dec?) {
          return false, decimals;
        }
        if index !in decimals {
          decimals := decimals + [index];
        }
      }
    }
    ok := true;
  }

  /** Record the disagreements of every batch; refuse at the first that is not between decimals. */
  method CollectDisagreements(schema: seq<Field>, batches: seq<Batch>) returns (ok: bool, decimals: seq<nat>)
    requires forall k :: 0 <= k < |batches| ==> |schema| <= |batches[k].schema|
    ensures ok <==> AllReconcilable(schema, batches)
    ensures ok ==> forall i: nat :: i in decimals <==> i in Disagreements(schema, batches)
  {
    decimals := [];
    for k := 0 to |batches|
      invariant forall m :: 0 <= m < k ==> Reconcilable(schema, batches[m])
      invariant forall i: nat :: i in decimals <==> i in Disagreements(schema, batches[..k])
    {
      MoreDisagreements(schema, batches, k);
      if batches[k].schema != schema {
        ok, decimals := CollectDecimalDisagreements(schema, batches[k], decimals);
        if !ok {
          return;
        }
      }
    }
    assert batches[..|batches|] == batches;
    ok := true;
  }

  /** Make the reported schema agree with the executed batches. */
  method ReconcileExecuted(schema: seq<Field>, batches: seq<Batch>) returns (r: Result<Frame>)
    requires forall k :: 0 <= k < |batches| ==> |schema| <= |batches[k].schema|
    ensures r == Reconcile(schema, batches)
  {
    var ok, decimals := CollectDisagreements(schema, batches);
    if !ok {
      return Err(SourceRefused);
    }
    SameColumns(decimals, Disagreements(schema, batches));
    if decimals == [] {
      return Ok(Frame(schema, batches));
    }
    r := RebuildDecimals(schema, batches, decimals);
  }

  lemma {:induction false} SameColumns(decimals: seq<nat>, columns: set<nat>)
    requires forall i: nat :: i in decimals <==> i in columns
    ensures ToSet(decimals) == columns
    ensures decimals == [] <==> columns == {}
  {
    if decimals != [] {
      assert decimals[0] in columns;
    }
  }

  lemma {:induction false} MoreDisagreements(schema: seq<Field>, batches: seq<Batch>, k: nat)
    requires k < |batches|
    ensures forall i: nat :: i in Disagreements(schema, batches[..k + 1]) <==>
                               i in Disagreements(schema, batches[..k])
                                 || (i < |schema| && TypeAt(batches[k].schema, i) != schema[i].dtype)
  {
    var more, some := batches[..k + 1], batches[..k];
    forall i: nat
      ensures i in Disagreements(schema, more) <==>
                i in Disagreements(schema, some) || (i < |schema| && TypeAt(batches[k].schema, i) != schema[i].dtype)
    {
      if i in Disagreements(schema, more) {
        var m: nat :| m < |more| && TypeAt(more[m].schema, i) != schema[i].dtype;
        if m < k {
          assert some[m] == more[m];
        }
      }
      if i in Disagreements(schema, some) {
        var m: nat :| m < |some| && TypeAt(some[m].schema, i) != schema[i].dtype;
        assert more[m] == some[m];
      }
      assert more[k] == batches[k];
    }
  }

  method RebuildSchema(schema: seq<Field>, scales: map<nat, nat>, ghost batches: seq<Batch>) returns (out: seq<Field>)
    requires forall i :: i in scales ==> scales[i] == ScaleOver(batches, i)
    ensures out == DecimalSchema(schema, batches, scales.Keys)
  {
    out := [];
    ghost var target := DecimalSchema(schema, batches, scales.Keys);
    for i := 0 to |schema|
      invariant out == target[..i]
    {
      assert target[..i + 1] == target[..i] + [target[i]];
      out := out + [if i in scales then Field(schema[i].name, Dec(DECIMAL_PRECISION, scales[i]), None) else schema[i]];
    }
    assert target[..|schema|] == target;
  }

  lemma {:induction false} RebuiltColumn(b: Batch, schema: seq<Field>, batches: seq<Batch>, columns: set<nat>, i: nat)
    requires i < |b.columns|
    ensures RebuildBatch(b, schema, Scales(batches), columns).columns[i] ==
              if i in columns then Relations.Map(Caster(ScaleOver(batches, i)), Texts(b, i)) else b.columns[i]
  {
  }

  method RebuildColumns(b: Batch, schema: seq<Field>, scales: map<nat, nat>,
                        ghost batches: seq<Batch>) returns (out: Batch)
    requires forall i :: i in scales ==> scales[i] == ScaleOver(batches, i)
    ensures out == RebuildBatch(b, schema, Scales(batches), scales.Keys)
  {
    var cols: seq<seq<Cell>> := [];
    ghost var rebuilt := RebuildBatch(b, schema, Scales(batches), scales.Keys).columns;
    for i := 0 to |b.columns|
      invariant cols == rebuilt[..i]
    {
      RebuiltColumn(b, schema, batches, scales.Keys, i);
      assert rebuilt[..i + 1] == rebuilt[..i] + [rebuilt[i]];
      cols := cols + [if i in scales then Relations.Map(Caster(scales[i]), Texts(b, i)) else b.columns[i]];
    }
    assert rebuilt[..|b.columns|] == rebuilt;
    return Batch(schema, cols);
  }

  /** Re-derive columns as decimals and rebuild every batch under the resulting schema. */
  method RebuildDecimals(schema: seq<Field>, batches: seq<Batch>, columns: seq<nat>) returns (r: Result<Frame>)
    ensures r == Rebuild(schema, batches, ToSet(columns))
  {
    var scales := DecimalScales(columns, batches);
    var newSchema := RebuildSchema(schema, scales, batches);
    var out: seq<Batch> := [];
    for bi := 0 to |batches|
      invariant |out| == bi
      invariant forall k :: 0 <= k < bi ==> RestConforms(schema, batches[k], scales.Keys)
      invariant forall k :: 0 <= k < bi ==> out[k] == RebuildBatch(batches[k], newSchema, Scales(batches), scales.Keys)
    {
      if !RestConforms(schema, batches[bi], scales.Keys) {
        return Err(SourceRefused);
      }
      var rebuilt := RebuildColumns(batches[bi], newSchema, scales, batches);
      out := out + [rebuilt];
    }
    assert ToSet(columns) == scales.Keys;
    assert out == RebuildBatches(batches, newSchema, Scales(batches), scales.Keys);
    return Ok(Frame(newSchema, out));
  }
}
