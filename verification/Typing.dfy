/**
 * How a Postgres read types its NUMERIC columns: every read by its own values, a parallel one partition by partition.
 */
module Typing {
  import opened Outcomes
  import opened Relations
  import opened Partition
  import opened Sources
  import opened Ir
  import D = Decimals
  import P = DecimalProofs
  import C = DecimalConfluence

  // --- one read -------------------------------------------------------------------------------------

  function ValueOf(unscaled: int, scale: nat): real {
    unscaled as real / D.Pow10(scale) as real
  }

  function Unscaled(x: real, digits: nat): int {
    (x * D.Pow10(digits) as real).Floor
  }

  function ValueAt(t: Tuple, i: nat): Value {
    if i < |t.row| then t.row[i] else Null
  }

  function DigitsAt(t: Tuple, i: nat): nat {
    if i < |t.digits| then t.digits[i] else 0
  }

  /** A NUMERIC cell as the driver delivers it. */
  function TextAt(i: nat): Tuple -> D.Cell {
    (t: Tuple) =>
      match ValueAt(t, i)
      case Dec(x) => D.Numeral(Unscaled(x, DigitsAt(t, i)), DigitsAt(t, i))
      case _ => D.Null
  }

  /** The scale a column gets: the widest any of its values prints. */
  function ScaleAt(heap: seq<Tuple>, i: nat): nat {
    D.Widest(Map(TextAt(i), heap))
  }

  function ScalesOf(heap: seq<Tuple>): nat -> nat {
    (i: nat) => ScaleAt(heap, i)
  }

  /** The value a decimal of the given scale holds for a text; NULL past the precision. */
  function TypedValue(scale: nat, text: D.Cell): Value {
    match D.CastTo(scale, text)
    case Decimal(u) => Dec(ValueOf(u, scale))
    case _ => Null
  }

  function TypedRow(schema: seq<Field>, scales: nat -> nat, t: Tuple): (row: Row)
    ensures |row| == |schema|
    ensures forall i :: 0 <= i < |schema| ==>
              row[i] == if schema[i].dtype == Numeric then TypedValue(scales(i), TextAt(i)(t)) else ValueAt(t, i)
  {
    seq(|schema|, i requires 0 <= i < |schema| =>
      if schema[i].dtype == Numeric then TypedValue(scales(i), TextAt(i)(t)) else ValueAt(t, i))
  }

  function RowTyper(schema: seq<Field>, scales: nat -> nat): Tuple -> Row {
    (t: Tuple) => TypedRow(schema, scales, t)
  }

  function TypedSchema(schema: seq<Field>, scales: nat -> nat): (out: seq<Field>)
    ensures |out| == |schema|
    ensures forall i :: 0 <= i < |schema| ==>
              out[i] ==
                if schema[i].dtype == Numeric then Field(schema[i].name, Decimal128(D.DECIMAL_PRECISION, scales(i)))
                else schema[i]
  {
    seq(|schema|, i requires 0 <= i < |schema| =>
      if schema[i].dtype == Numeric then Field(schema[i].name, Decimal128(D.DECIMAL_PRECISION, scales(i)))
        else schema[i])
  }

  function TypedBy(schema: seq<Field>, scales: nat -> nat, heap: seq<Tuple>): Table {
    Table(TypedSchema(schema, scales), Map(RowTyper(schema, scales), heap))
  }

  /** One read over one connection: Postgres types its NUMERIC columns by the values read. */
  function Read(kind: DsKind, s: Stored): Table {
    if kind == Postgres then TypedBy(s.schema, ScalesOf(s.heap), s.heap) else Table(s.schema, RowsIn(s.heap))
  }

  // --- the same through record batches ---------------------------------------------------------------

  function DriverField(f: Field): D.Field {
    if f.dtype == Numeric then D.Field(f.name, D.Utf8, Some("numeric")) else D.Field(f.name, D.Plain(f.dtype), None)
  }

  function DriverFields(schema: seq<Field>): seq<D.Field> {
    Map(DriverField, schema)
  }

  function DriverCell(schema: seq<Field>, i: nat): Tuple -> D.Cell {
    (t: Tuple) => if i < |schema| && schema[i].dtype == Numeric then TextAt(i)(t) else D.Other(ValueAt(t, i))
  }

  /** The columns a driver delivers for some tuples. */
  function DriverColumns(schema: seq<Field>, heap: seq<Tuple>): (columns: seq<seq<D.Cell>>)
    ensures |columns| == |schema|
    ensures forall i :: 0 <= i < |schema| ==> columns[i] == Map(DriverCell(schema, i), heap)
  {
    seq(|schema|, i requires 0 <= i < |schema| => Map(DriverCell(schema, i), heap))
  }

  function DriverBatch(schema: seq<Field>, heap: seq<Tuple>): D.Batch {
    D.Batch(DriverFields(schema), DriverColumns(schema, heap))
  }

  function FieldOf(f: D.Field): Field {
    match f.dtype
    case Dec(precision, scale) => Field(f.name, Decimal128(precision, scale))
    case Utf8 => Field(f.name, Utf8)
    case Plain(dtype) => Field(f.name, dtype)
  }

  function CellOf(dtype: D.DType, c: D.Cell): Value {
    match c
    case Null => Null
    case Numeral(u, f) => Dec(ValueOf(u, f))
    case Decimal(u) => Dec(ValueOf(u, if dtype.Dec? then dtype.scale else 0))
    case Other(v) => v
  }

  function BatchRow(b: D.Batch, c: nat): (row: Row)
    ensures |row| == |b.columns|
    ensures forall i :: 0 <= i < |b.columns| ==>
              row[i] == if c < |b.columns[i]| then CellOf(D.TypeAt(b.schema, i), b.columns[i][c]) else Null
  {
    seq(|b.columns|, i requires 0 <= i < |b.columns| =>
      if c < |b.columns[i]| then CellOf(D.TypeAt(b.schema, i), b.columns[i][c]) else Null)
  }

  function BatchRows(b: D.Batch): (rows: seq<Row>)
    ensures |rows| == if b.columns == [] then 0 else |b.columns[0]|
    ensures forall c :: 0 <= c < |rows| ==> rows[c] == BatchRow(b, c)
  {
    seq(if b.columns == [] then 0 else |b.columns[0]|, c requires 0 <= c => BatchRow(b, c))
  }

  function AllRows(batches: seq<D.Batch>): seq<Row> {
    if batches == [] then [] else BatchRows(batches[0]) + AllRows(batches[1..])
  }

  /** The relation in a frame of record batches. */
  function FrameTable(f: D.Frame): Table {
    Table(Map(FieldOf, f.schema), AllRows(f.batches))
  }

  function Flat(parts: seq<seq<Tuple>>): seq<Tuple> {
    if parts == [] then [] else parts[0] + Flat(parts[1..])
  }

  function Batched(schema: seq<Field>): seq<Tuple> -> D.Batch {
    (heap: seq<Tuple>) => DriverBatch(schema, heap)
  }

  function Batches(schema: seq<Field>, parts: seq<seq<Tuple>>): seq<D.Batch> {
    Map(Batched(schema), parts)
  }

  lemma {:induction false} NumericIsNumeric(schema: seq<Field>, i: nat)
    ensures i in D.NumericColumns(DriverFields(schema)) <==> i < |schema| && schema[i].dtype == Numeric
  {
  }

  /** The texts of a delivered NUMERIC column are its values' texts. */
  lemma {:induction false} DeliveredTexts(schema: seq<Field>, heap: seq<Tuple>, i: nat)
    requires i < |schema| && schema[i].dtype == Numeric
    ensures D.Texts(DriverBatch(schema, heap), i) == Map(TextAt(i), heap)
  {
    var b := DriverBatch(schema, heap);
    assert D.Column(b, i) == Map(DriverCell(schema, i), heap);
    forall k | 0 <= k < |heap| ensures D.Texts(b, i)[k] == TextAt(i)(heap[k]) {
      assert D.Column(b, i)[k] == TextAt(i)(heap[k]);
    }
  }

  lemma {:induction false} WidestAppend(a: seq<D.Cell>, b: seq<D.Cell>)
    ensures D.Widest(a + b) == D.Max(D.Widest(a), D.Widest(b))
  {
    if b == [] {
      assert a + b == a;
    } else {
      assert (a + b)[..|a + b| - 1] == a + b[..|b| - 1];
      WidestAppend(a, b[..|b| - 1]);
    }
  }

  /** However the tuples are cut into batches, a column's scale is the widest any value prints. */
  lemma {:induction false} ScaleOfBatches(schema: seq<Field>, parts: seq<seq<Tuple>>, i: nat)
    requires i < |schema| && schema[i].dtype == Numeric
    ensures D.ScaleOver(Batches(schema, parts), i) == ScaleAt(Flat(parts), i)
  {
    if parts != [] {
      ScaleOfBatches(schema, parts[1..], i);
      var first := [DriverBatch(schema, parts[0])];
      assert Batches(schema, parts) == first + Batches(schema, parts[1..]);
      P.ScaleOverAppend(first, Batches(schema, parts[1..]), i);
      ScaleOfOne(schema, parts[0], i);
      ScaleAtAppend(parts[0], Flat(parts[1..]), i);
    }
  }

  lemma {:induction false} ScaleOfOne(schema: seq<Field>, heap: seq<Tuple>, i: nat)
    requires i < |schema| && schema[i].dtype == Numeric
    ensures D.ScaleOver([DriverBatch(schema, heap)], i) == ScaleAt(heap, i)
  {
    DeliveredTexts(schema, heap, i);
    assert [DriverBatch(schema, heap)][..0] == [];
  }

  lemma {:induction false} ScaleAtAppend(a: seq<Tuple>, b: seq<Tuple>, i: nat)
    ensures ScaleAt(a + b, i) == D.Max(ScaleAt(a, i), ScaleAt(b, i))
  {
    MapAppend(TextAt(i), a, b);
    WidestAppend(Map(TextAt(i), a), Map(TextAt(i), b));
  }

  /** One delivered batch, rebuilt under derived scales, holds its tuples typed at them. */
  lemma {:induction false} RebuiltRows(schema: seq<Field>, heap: seq<Tuple>, out: seq<D.Field>, scales: nat -> nat)
    requires schema != [] && |out| == |schema|
    requires forall i: nat :: i < |schema| ==>
               out[i].dtype ==
                 if schema[i].dtype == Numeric then D.Dec(D.DECIMAL_PRECISION, scales(i)) else D.Plain(schema[i].dtype)
    ensures BatchRows(D.RebuildBatch(DriverBatch(schema, heap), out, scales, D.NumericColumns(DriverFields(schema)))) ==
              Map(RowTyper(schema, scales), heap)
  {
    var b := D.RebuildBatch(DriverBatch(schema, heap), out, scales, D.NumericColumns(DriverFields(schema)));
    RebuiltColumnLength(schema, heap, out, scales, 0);
    forall c: nat | c < |heap| ensures BatchRow(b, c) == TypedRow(schema, scales, heap[c]) {
      forall i: nat | i < |schema| ensures BatchRow(b, c)[i] == TypedRow(schema, scales, heap[c])[i] {
        RebuiltColumnLength(schema, heap, out, scales, i);
        RebuiltCell(schema, heap, out, scales, i, c);
      }
    }
  }

  lemma {:induction false} RebuiltColumnLength(schema: seq<Field>, heap: seq<Tuple>, out: seq<D.Field>,
                                               scales: nat -> nat, i: nat)
    requires i < |schema|
    ensures |D.RebuildBatch(DriverBatch(schema, heap), out, scales,
              D.NumericColumns(DriverFields(schema))).columns[i]| == |heap|
  {
    if i in D.NumericColumns(DriverFields(schema)) {
      NumericIsNumeric(schema, i);
      DeliveredTexts(schema, heap, i);
    }
  }

  lemma {:induction false} RebuiltCell(schema: seq<Field>, heap: seq<Tuple>, out: seq<D.Field>, scales: nat -> nat,
                                       i: nat, c: nat)
    requires i < |schema| == |out| && c < |heap|
    requires out[i].dtype ==
               if schema[i].dtype == Numeric then D.Dec(D.DECIMAL_PRECISION, scales(i)) else D.Plain(schema[i].dtype)
    requires var b := D.RebuildBatch(DriverBatch(schema, heap), out, scales, D.NumericColumns(DriverFields(schema)));
             |b.columns[i]| == |heap|
    ensures var b := D.RebuildBatch(DriverBatch(schema, heap), out, scales, D.NumericColumns(DriverFields(schema)));
            CellOf(out[i].dtype, b.columns[i][c]) ==
              if schema[i].dtype == Numeric then TypedValue(scales(i), TextAt(i)(heap[c])) else ValueAt(heap[c], i)
  {
    NumericIsNumeric(schema, i);
    if schema[i].dtype == Numeric {
      DeliveredTexts(schema, heap, i);
    }
  }

  /** All batches of one read, normalized together. */
  lemma {:induction false} RebuiltBatches(schema: seq<Field>, parts: seq<seq<Tuple>>, out: seq<D.Field>,
                                          scales: nat -> nat)
    requires schema != [] && |out| == |schema|
    requires forall i: nat :: i < |schema| ==>
               out[i].dtype ==
                 if schema[i].dtype == Numeric then D.Dec(D.DECIMAL_PRECISION, scales(i)) else D.Plain(schema[i].dtype)
    ensures AllRows(D.RebuildBatches(Batches(schema, parts), out, scales, D.NumericColumns(DriverFields(schema)))) ==
              Map(RowTyper(schema, scales), Flat(parts))
  {
    if parts != [] {
      var numeric := D.NumericColumns(DriverFields(schema));
      RebuiltBatches(schema, parts[1..], out, scales);
      RebuiltRows(schema, parts[0], out, scales);
      assert Batches(schema, parts) == [DriverBatch(schema, parts[0])] + Batches(schema, parts[1..]);
      assert D.RebuildBatches(Batches(schema, parts), out, scales, numeric)[1..] ==
               D.RebuildBatches(Batches(schema, parts[1..]), out, scales, numeric);
      MapAppend(RowTyper(schema, scales), parts[0], Flat(parts[1..]));
    }
  }

  // --- any cut into batches ---------------------------------------------------------------------------

  lemma {:induction false} SameTyping(schema: seq<Field>, a: nat -> nat, b: nat -> nat, heap: seq<Tuple>)
    requires forall i: nat :: i < |schema| && schema[i].dtype == Numeric ==> a(i) == b(i)
    ensures TypedBy(schema, a, heap) == TypedBy(schema, b, heap)
  {
    assert TypedSchema(schema, a) == TypedSchema(schema, b);
    forall k | 0 <= k < |heap| ensures TypedRow(schema, a, heap[k]) == TypedRow(schema, b, heap[k]) {
    }
  }

  lemma {:induction false} NormalizedTable(schema: seq<Field>, parts: seq<seq<Tuple>>)
    requires schema != []
    ensures FrameTable(P.Normalized(DriverFields(schema), Batches(schema, parts))) ==
              Read(Postgres, Stored(schema, Flat(parts)))
  {
    var batches := Batches(schema, parts);
    var out := P.Normalized(DriverFields(schema), batches).schema;
    forall i: nat | i < |schema|
      ensures out[i].dtype == if schema[i].dtype == Numeric then D.Dec(D.DECIMAL_PRECISION, D.Scales(batches)(i))
                              else D.Plain(schema[i].dtype)
    {
      NumericIsNumeric(schema, i);
    }
    RebuiltBatches(schema, parts, out, D.Scales(batches));
    assert Map(FieldOf, out) == TypedSchema(schema, D.Scales(batches)) by {
      forall i: nat | i < |schema| ensures FieldOf(out[i]) == TypedSchema(schema, D.Scales(batches))[i] {
        NumericIsNumeric(schema, i);
      }
    }
    forall i: nat | i < |schema| && schema[i].dtype == Numeric
      ensures D.Scales(batches)(i) == ScalesOf(Flat(parts))(i)
    {
      ScaleOfBatches(schema, parts, i);
    }
    SameTyping(schema, D.Scales(batches), ScalesOf(Flat(parts)), Flat(parts));
  }

  /** What one read returns does not depend on how its driver cuts the answer into batches. */
  lemma {:induction false} ReadIsRunQuery(schema: seq<Field>, parts: seq<seq<Tuple>>)
    requires schema != []
    ensures var r := P.RunQuery(DriverFields(schema), Batches(schema, parts));
            r.Ok? && FrameTable(r.value) == Read(Postgres, Stored(schema, Flat(parts)))
  {
    P.NormalizesToItsScale(DriverFields(schema), Batches(schema, parts));
    NormalizedTable(schema, parts);
  }

  /** A driver's cut of an answer into batches, whatever it is. */
  type Cutter = seq<Tuple> -> seq<seq<Tuple>>

  function CutBy(cut: Cutter, heap: seq<Tuple>): (parts: seq<seq<Tuple>>)
    ensures Flat(parts) == heap
  {
    if Flat(cut(heap)) == heap then cut(heap)
    else
      assert [heap][1..] == [];
      [heap]
  }

  function BatchedPart(schema: seq<Field>, cut: Cutter): seq<Tuple> -> seq<D.Batch> {
    (heap: seq<Tuple>) => Batches(schema, CutBy(cut, heap))
  }

  /** What the partitions deliver. */
  function DriverParts(schema: seq<Field>, cut: Cutter, heaps: seq<seq<Tuple>>): seq<seq<D.Batch>> {
    Map(BatchedPart(schema, cut), heaps)
  }

  /** A partitioned read: every partition typed by its own values, concatenated in order and reconciled. */
  function ReadInParts(schema: seq<Field>, cut: Cutter, heaps: seq<seq<Tuple>>): Result<Table>
    requires heaps != []
  {
    var f :- P.FetchParallel(DriverFields(schema), DriverParts(schema, cut, heaps));
    Ok(FrameTable(f))
  }

  function AllCuts(cut: Cutter, heaps: seq<seq<Tuple>>): seq<seq<Tuple>> {
    if heaps == [] then [] else CutBy(cut, heaps[0]) + AllCuts(cut, heaps[1..])
  }

  lemma {:induction false} FlatAppend(a: seq<seq<Tuple>>, b: seq<seq<Tuple>>)
    ensures Flat(a + b) == Flat(a) + Flat(b)
  {
    if a == [] {
      assert a + b == b;
    } else {
      assert (a + b)[1..] == a[1..] + b;
      FlatAppend(a[1..], b);
    }
  }

  lemma {:induction false} PartsHead(schema: seq<Field>, cut: Cutter, heaps: seq<seq<Tuple>>)
    requires heaps != []
    ensures P.Concat(DriverParts(schema, cut, heaps)) ==
              Batches(schema, CutBy(cut, heaps[0])) + P.Concat(DriverParts(schema, cut, heaps[1..]))
  {
    assert DriverParts(schema, cut, heaps)[1..] == DriverParts(schema, cut, heaps[1..]);
  }

  lemma {:induction false} CutsConcatenate(schema: seq<Field>, cut: Cutter, heaps: seq<seq<Tuple>>)
    ensures P.Concat(DriverParts(schema, cut, heaps)) == Batches(schema, AllCuts(cut, heaps))
    ensures Flat(AllCuts(cut, heaps)) == Flat(heaps)
  {
    if heaps != [] {
      CutsConcatenate(schema, cut, heaps[1..]);
      PartsHead(schema, cut, heaps);
      MapAppend(Batched(schema), CutBy(cut, heaps[0]), AllCuts(cut, heaps[1..]));
      FlatAppend(CutBy(cut, heaps[0]), AllCuts(cut, heaps[1..]));
    }
  }

  /** The widest scale of every column the partitions differ on is carried by a value that fits at it. */
  ghost predicate ScalesSurvive(schema: seq<Field>, cut: Cutter, heaps: seq<seq<Tuple>>)
    requires heaps != []
  {
    var parts := DriverParts(schema, cut, heaps);
    forall i :: i in C.Differing(DriverFields(schema), parts) ==> C.WidestSurvives(parts, i)
  }

  lemma {:induction false} DriverPartsAreRaw(schema: seq<Field>, cut: Cutter, heaps: seq<seq<Tuple>>)
    ensures P.AllRaw(DriverFields(schema), DriverParts(schema, cut, heaps))
  {
  }

  /** A partitioned read is the one read of the same tuples if and only if the scales survive. */
  lemma {:induction false} PartsReadIff(schema: seq<Field>, cut: Cutter, heaps: seq<seq<Tuple>>)
    requires heaps != [] && schema != []
    ensures ReadInParts(schema, cut, heaps).Ok?
    ensures ReadInParts(schema, cut, heaps) == Ok(Read(Postgres, Stored(schema, Flat(heaps)))) <==>
              ScalesSurvive(schema, cut, heaps)
  {
    var fields, parts := DriverFields(schema), DriverParts(schema, cut, heaps);
    DriverPartsAreRaw(schema, cut, heaps);
    C.ConfluentIff(fields, parts);
    C.ParallelFrame(fields, parts);
    CutsConcatenate(schema, cut, heaps);
    ReadIsRunQuery(schema, AllCuts(cut, heaps));
    if !ScalesSurvive(schema, cut, heaps) {
      var i :| i in C.Differing(fields, parts) && !C.WidestSurvives(parts, i);
      LostScaleShows(schema, cut, heaps, i);
    }
  }

  /** A scale that does not survive shows in the type of its column. */
  lemma {:induction false} LostScaleShows(schema: seq<Field>, cut: Cutter, heaps: seq<seq<Tuple>>, i: nat)
    requires heaps != [] && schema != []
    requires var parts := DriverParts(schema, cut, heaps);
             i in C.Differing(DriverFields(schema), parts) && !C.WidestSurvives(parts, i)
    ensures ReadInParts(schema, cut, heaps).Ok?
    ensures ReadInParts(schema, cut, heaps).value.schema != Read(Postgres, Stored(schema, Flat(heaps))).schema
  {
    var fields, parts := DriverFields(schema), DriverParts(schema, cut, heaps);
    DriverPartsAreRaw(schema, cut, heaps);
    C.ParallelFrame(fields, parts);
    C.LostScaleAt(fields, parts, i);
    CutsConcatenate(schema, cut, heaps);
    NormalizedTable(schema, AllCuts(cut, heaps));
    var split := P.FetchParallel(fields, parts).value;
    var whole := P.Normalized(fields, P.Concat(parts));
    assert FieldOf(split.schema[i]) != FieldOf(whole.schema[i]);
    assert FrameTable(split).schema[i] != FrameTable(whole).schema[i];
  }

  // --- values that typing keeps -------------------------------------------------------------------------

  /** Every value of a relation is read as itself. */
  ghost predicate KeepsValues(s: Stored) {
    Read(Postgres, s).rows == RowsIn(s.heap)
  }

  /** Equal but for the scales of decimals. */
  predicate SameShape(a: seq<Field>, b: seq<Field>) {
    |a| == |b| && forall i :: 0 <= i < |a| ==> a[i].name == b[i].name && SameType(a[i].dtype, b[i].dtype)
  }

  predicate SameType(a: DataType, b: DataType) {
    a == b || (a.Decimal128? && b.Decimal128? && a.precision == b.precision)
  }

  lemma {:induction false} WiderSameValue(u: int, f: nat, g: nat)
    requires f <= g
    ensures ValueOf(u * D.Pow10(g - f), g) == ValueOf(u, f)
  {
    D.Pow10Adds(f, g - f);
    SameQuotient(u, D.Pow10(f), D.Pow10(g - f));
  }

  lemma {:induction false} SameQuotient(u: int, q: nat, p: nat)
    requires q > 0 && p > 0
    ensures (u * p) as real / (q * p) as real == u as real / q as real
  {
    var x := u as real / q as real;
    assert x * q as real == u as real;
    assert (u * p) as real == u as real * p as real && (q * p) as real == q as real * p as real;
    assert x * (q * p) as real == (u * p) as real;
  }

  lemma {:induction false} ShapeIndex(a: seq<Field>, b: seq<Field>, name: string)
    requires SameShape(a, b)
    ensures IndexOf(a, name) == IndexOf(b, name)
  {
    SameNames(a, b, name);
  }

  lemma {:induction false} ReadShape(kind: DsKind, s: Stored, name: string)
    ensures IndexOf(Read(kind, s).schema, name) == IndexOf(s.schema, name)
  {
    if kind == Postgres {
      TypedIndex(s.schema, ScalesOf(s.heap), name);
    }
  }

  lemma {:induction false} TypedIndex(schema: seq<Field>, scales: nat -> nat, name: string)
    ensures IndexOf(TypedSchema(schema, scales), name) == IndexOf(schema, name)
  {
    SameNames(TypedSchema(schema, scales), schema, name);
  }

  lemma {:induction false} SameNames(a: seq<Field>, b: seq<Field>, name: string)
    requires |a| == |b| && forall i :: 0 <= i < |a| ==> a[i].name == b[i].name
    ensures IndexOf(a, name) == IndexOf(b, name)
  {
    if a != [] {
      SameNames(a[1..], b[1..], name);
    }
  }

  /** A value that is not lost at a scale is typed alike at every scale between its own digits and that one. */
  lemma {:induction false} NotLostBetween(text: D.Cell, scale: nat, wider: nat)
    requires text.Null? || text.Numeral?
    requires D.Digits(text) <= scale <= wider <= D.MAX_FRACTION && TypedValue(wider, text) != Null
    ensures TypedValue(scale, text) == TypedValue(wider, text)
  {
    if text.frac <= D.MAX_FRACTION {
      FitsNarrower(text.unscaled, text.frac, scale, wider);
      WiderSameValue(text.unscaled, text.frac, scale);
      WiderSameValue(text.unscaled, text.frac, wider);
    }
  }

  lemma {:induction false} FitsNarrower(u: int, d: nat, scale: nat, wider: nat)
    requires d <= scale <= wider && D.Fits(D.Rescale(u, d, wider))
    ensures D.CastTo(scale, D.Numeral(u, d)) == D.Decimal(u * D.Pow10(scale - d))
  {
    P.ScalingUp(u, d, scale, wider);
    if !D.Fits(u * D.Pow10(scale - d)) {
      P.StaysUnfit(u * D.Pow10(scale - d), D.Pow10(wider - scale));
    }
  }

  lemma {:induction false} PartScales(whole: seq<Tuple>, part: seq<Tuple>, i: nat)
    requires forall t :: t in part ==> t in whole
    ensures ScaleAt(part, i) <= ScaleAt(whole, i)
  {
    var texts := Map(TextAt(i), part);
    P.WidestAttained(texts);
    if D.Widest(texts) > 0 {
      var k :| 0 <= k < |texts| && D.Digits(texts[k]) == D.Widest(texts);
      assert part[k] in whole;
      var m :| 0 <= m < |whole| && whole[m] == part[k];
      P.WidestBounds(Map(TextAt(i), whole), m);
      assert Map(TextAt(i), whole)[m] == texts[k];
    }
  }

  /** The digits of a tuple's value, its column's scale in a part, and that in the whole. */
  lemma {:induction false} ScalesWithin(whole: seq<Tuple>, part: seq<Tuple>, k: nat, i: nat)
    requires k < |part| && forall t :: t in part ==> t in whole
    ensures D.Digits(TextAt(i)(part[k])) <= ScaleAt(part, i) <= ScaleAt(whole, i) <= D.MAX_FRACTION
  {
    PartScales(whole, part, i);
    P.WidestBounds(Map(TextAt(i), part), k);
    P.WidestAttained(Map(TextAt(i), whole));
  }

  /** A part of a relation whose values are kept is read as the rows it holds, at scales no wider than the whole's. */
  lemma {:induction false} KeptPart(kind: DsKind, s: Stored, part: seq<Tuple>)
    requires KeepsValues(s) && forall t :: t in part ==> t in s.heap
    ensures Read(kind, Stored(s.schema, part)).rows == RowsIn(part)
    ensures SameShape(Read(kind, Stored(s.schema, part)).schema, Read(kind, s).schema)
  {
    forall k | 0 <= k < |part| ensures TypedRow(s.schema, ScalesOf(part), part[k]) == part[k].row {
      assert part[k] in s.heap;
      KeptRow(s, part, k);
    }
  }

  /** The same for any source: only Postgres types by value. */
  lemma {:induction false} ReadPart(kind: DsKind, s: Stored, part: seq<Tuple>)
    requires kind == Postgres ==> KeepsValues(s)
    requires forall t :: t in part ==> t in s.heap
    ensures Read(kind, Stored(s.schema, part)).rows == RowsIn(part)
    ensures SameShape(Read(kind, Stored(s.schema, part)).schema, Read(kind, s).schema)
  {
    if kind == Postgres {
      KeptPart(kind, s, part);
    }
  }

  lemma {:induction false} KeptRow(s: Stored, part: seq<Tuple>, k: nat)
    requires KeepsValues(s) && k < |part| && forall t :: t in part ==> t in s.heap
    ensures TypedRow(s.schema, ScalesOf(part), part[k]) == part[k].row
  {
    assert part[k] in s.heap;
    var m :| 0 <= m < |s.heap| && s.heap[m] == part[k];
    KeptAt(s, m);
    forall i: nat | i < |s.schema| ensures TypedRow(s.schema, ScalesOf(part), part[k])[i] == part[k].row[i] {
      if s.schema[i].dtype == Numeric {
        KeptCell(s, part, k, m, i);
      }
    }
  }

  lemma {:induction false} KeptAt(s: Stored, m: nat)
    requires KeepsValues(s) && m < |s.heap|
    ensures TypedRow(s.schema, ScalesOf(s.heap), s.heap[m]) == s.heap[m].row
  {
    assert Read(Postgres, s).rows[m] == RowsIn(s.heap)[m];
  }

  lemma {:induction false} KeptCell(s: Stored, part: seq<Tuple>, k: nat, m: nat, i: nat)
    requires k < |part| && m < |s.heap| && s.heap[m] == part[k] && forall t :: t in part ==> t in s.heap
    requires TypedValue(ScaleAt(s.heap, i), TextAt(i)(part[k])) == ValueAt(part[k], i)
    ensures TypedValue(ScaleAt(part, i), TextAt(i)(part[k])) == ValueAt(part[k], i)
  {
    ScalesWithin(s.heap, part, k, i);
    if ValueAt(part[k], i) != Null {
      NotLostBetween(TextAt(i)(part[k]), ScaleAt(part, i), ScaleAt(s.heap, i));
    }
  }

  /** Kept values make every scale survive, so a partitioned read of them is the one read. */
  lemma {:induction false} KeptSurvive(schema: seq<Field>, cut: Cutter, heaps: seq<seq<Tuple>>)
    requires heaps != [] && schema != [] && KeepsValues(Stored(schema, Flat(heaps)))
    ensures ReadInParts(schema, cut, heaps) == Ok(Read(Postgres, Stored(schema, Flat(heaps))))
  {
    DriverPartsAreRaw(schema, cut, heaps);
    CutsConcatenate(schema, cut, heaps);
    KeptCast(schema, AllCuts(cut, heaps));
    C.CastsAreConfluent(DriverFields(schema), DriverParts(schema, cut, heaps));
    PartsReadIff(schema, cut, heaps);
  }

  lemma {:induction false} KeptCast(schema: seq<Field>, cuts: seq<seq<Tuple>>)
    requires KeepsValues(Stored(schema, Flat(cuts)))
    ensures C.AllCast(DriverFields(schema), Batches(schema, cuts))
  {
    var batches := Batches(schema, cuts);
    forall k: nat, i: nat, c: nat |
      k < |batches| && i in D.NumericColumns(DriverFields(schema)) && c < |D.Texts(batches[k], i)|
      ensures D.Texts(batches[k], i)[c].Numeral? ==>
                D.CastTo(D.ScaleOver(batches, i), D.Texts(batches[k], i)[c]) != D.Null
    {
      NumericIsNumeric(schema, i);
      var m := TextOfTuple(schema, cuts, k, i, c);
      KeptText(Stored(schema, Flat(cuts)), m, i);
    }
  }

  lemma {:induction false} KeptText(s: Stored, m: nat, i: nat)
    requires KeepsValues(s) && m < |s.heap| && i < |s.schema| && s.schema[i].dtype == Numeric
    ensures TextAt(i)(s.heap[m]).Numeral? ==> D.CastTo(ScaleAt(s.heap, i), TextAt(i)(s.heap[m])) != D.Null
  {
    KeptAt(s, m);
    assert TypedRow(s.schema, ScalesOf(s.heap), s.heap[m])[i] == s.heap[m].row[i];
  }

  /** A delivered text is a tuple's, and its column's scale that of the tuples. */
  lemma {:induction false} TextOfTuple(schema: seq<Field>, cuts: seq<seq<Tuple>>, k: nat, i: nat,
                                       c: nat) returns (m: nat)
    requires k < |cuts| && i < |schema| && schema[i].dtype == Numeric && c < |D.Texts(Batches(schema, cuts)[k], i)|
    ensures m < |Flat(cuts)| && c < |cuts[k]| && Flat(cuts)[m] == cuts[k][c]
    ensures D.Texts(Batches(schema, cuts)[k], i)[c] == TextAt(i)(cuts[k][c])
    ensures D.ScaleOver(Batches(schema, cuts), i) == ScaleAt(Flat(cuts), i)
  {
    DeliveredTexts(schema, cuts[k], i);
    ScaleOfBatches(schema, cuts, i);
    InFlat(cuts, k, c);
    m :| m < |Flat(cuts)| && Flat(cuts)[m] == cuts[k][c];
  }

  lemma {:induction false} InFlat(parts: seq<seq<Tuple>>, k: nat, c: nat)
    requires k < |parts| && c < |parts[k]|
    ensures parts[k][c] in Flat(parts)
  {
    if k != 0 {
      InFlat(parts[1..], k - 1, c);
    }
  }

  // --- when reading less changes what is read -------------------------------------------------------------

  /** No NUMERIC that a decimal of its own digits holds is lost at its column's scale. */
  ghost predicate StableTyping(s: Stored) {
    forall k: nat, i: nat :: k < |s.heap| && i < |s.schema| && s.schema[i].dtype == Numeric ==>
      TypedValue(ScaleAt([s.heap[k]], i), TextAt(i)(s.heap[k])) == TypedValue(ScaleAt(s.heap, i), TextAt(i)(s.heap[k]))
  }

  /** A tuple that has every value the other has: no key set can join the other and leave it out. */
  predicate Peer(schema: seq<Field>, t: Tuple, u: Tuple) {
    forall i :: 0 <= i < |schema| ==>
      var v := Cell(schema, t.row, schema[i].name);
      v != Null ==> Cell(schema, u.row, schema[i].name) == v
  }

  function Peering(schema: seq<Field>, t: Tuple): Tuple -> bool {
    (u: Tuple) => Peer(schema, t, u)
  }

  function Peers(s: Stored, t: Tuple): seq<Tuple> {
    Filter(Peering(s.schema, t), s.heap)
  }

  /** A NUMERIC is read as itself or as NULL, and among its tuple's peers as in the whole relation. */
  ghost predicate Settled(s: Stored, t: Tuple, i: nat) {
    var typed := TypedValue(ScaleAt(s.heap, i), TextAt(i)(t));
    && (typed == Null || typed == ValueAt(t, i))
    && TypedValue(ScaleAt(Peers(s, t), i), TextAt(i)(t)) == typed
  }

  /** No NUMERIC of a relation is rounded, and none is lost that is not lost among its tuple's peers too. */
  ghost predicate NothingTurns(s: Stored) {
    forall k: nat, i: nat :: k < |s.heap| && i < |s.schema| && s.schema[i].dtype == Numeric ==> Settled(s, s.heap[k], i)
  }

  /** A part of a relation is typed, tuple by tuple, as it is in the whole. */
  ghost predicate TypedAlike(s: Stored, part: seq<Tuple>) {
    forall k :: 0 <= k < |part| ==>
      TypedRow(s.schema, ScalesOf(part), part[k]) == TypedRow(s.schema, ScalesOf(s.heap), part[k])
  }

  ghost predicate AllPartsAlike(s: Stored) {
    forall part: seq<Tuple> :: (forall t :: t in part ==> t in s.heap) ==> TypedAlike(s, part)
  }

  /** A value typed alike at two scales that hold its digits is typed alike at every scale between. */
  lemma {:induction false} BetweenScales(text: D.Cell, own: nat, scale: nat, wider: nat)
    requires text.Null? || text.Numeral?
    requires D.Digits(text) <= own <= scale <= wider <= D.MAX_FRACTION
    requires TypedValue(own, text) == TypedValue(wider, text)
    ensures TypedValue(scale, text) == TypedValue(wider, text)
  {
    if TypedValue(wider, text) != Null {
      NotLostBetween(text, scale, wider);
    } else if text.Numeral? && text.frac <= D.MAX_FRACTION {
      LostStays(text, own, scale);
    }
  }

  lemma {:induction false} LostStays(text: D.Cell, own: nat, scale: nat)
    requires text.Numeral? && text.frac <= own <= scale && TypedValue(own, text) == Null
    ensures TypedValue(scale, text) == Null
  {
    P.ScalingUp(text.unscaled, text.frac, own, scale);
    P.StaysUnfit(text.unscaled * D.Pow10(own - text.frac), D.Pow10(scale - own));
  }

  lemma {:induction false} OneScale(t: Tuple, i: nat)
    ensures ScaleAt([t], i) == D.Digits(TextAt(i)(t))
  {
    var texts := Map(TextAt(i), [t]);
    assert texts[..|texts| - 1] == [] && texts[|texts| - 1] == TextAt(i)(t);
    assert D.Widest(texts) == D.Max(D.Widest(texts[..|texts| - 1]), D.Digits(texts[|texts| - 1]));
  }

  /**
   * Reading any part of a relation types it as reading the whole does, if and only if no value that fits alone is
   * lost.
   */
  lemma {:induction false} TypingIsStableIff(s: Stored)
    ensures AllPartsAlike(s) <==> StableTyping(s)
  {
    if AllPartsAlike(s) {
      forall k: nat, i: nat | k < |s.heap| && i < |s.schema| && s.schema[i].dtype == Numeric
        ensures TypedValue(ScaleAt([s.heap[k]], i), TextAt(i)(s.heap[k])) ==
                  TypedValue(ScaleAt(s.heap, i), TextAt(i)(s.heap[k]))
      {
        AloneAlike(s, k, i);
      }
    }
    if StableTyping(s) {
      forall part: seq<Tuple> | forall t :: t in part ==> t in s.heap ensures TypedAlike(s, part) {
        forall k: nat | k < |part|
          ensures TypedRow(s.schema, ScalesOf(part), part[k]) == TypedRow(s.schema, ScalesOf(s.heap), part[k])
        {
          StableRow(s, part, k);
        }
      }
    }
  }

  lemma {:induction false} AloneAlike(s: Stored, k: nat, i: nat)
    requires AllPartsAlike(s) && k < |s.heap| && i < |s.schema| && s.schema[i].dtype == Numeric
    ensures TypedValue(ScaleAt([s.heap[k]], i), TextAt(i)(s.heap[k])) ==
              TypedValue(ScaleAt(s.heap, i), TextAt(i)(s.heap[k]))
  {
    var part := [s.heap[k]];
    assert TypedAlike(s, part);
    assert TypedRow(s.schema, ScalesOf(part), part[0])[i] == TypedRow(s.schema, ScalesOf(s.heap), part[0])[i];
  }

  lemma {:induction false} StableRow(s: Stored, part: seq<Tuple>, k: nat)
    requires StableTyping(s) && k < |part| && forall t :: t in part ==> t in s.heap
    ensures TypedRow(s.schema, ScalesOf(part), part[k]) == TypedRow(s.schema, ScalesOf(s.heap), part[k])
  {
    assert part[k] in s.heap;
    var m :| 0 <= m < |s.heap| && s.heap[m] == part[k];
    forall i: nat | i < |s.schema| && s.schema[i].dtype == Numeric
      ensures TypedValue(ScaleAt(part, i), TextAt(i)(part[k])) == TypedValue(ScaleAt(s.heap, i), TextAt(i)(part[k]))
    {
      StableCell(s, part, k, m, i);
    }
  }

  lemma {:induction false} StableCell(s: Stored, part: seq<Tuple>, k: nat, m: nat, i: nat)
    requires StableTyping(s) && k < |part| && m < |s.heap| && s.heap[m] == part[k]
    requires forall t :: t in part ==> t in s.heap
    requires i < |s.schema| && s.schema[i].dtype == Numeric
    ensures TypedValue(ScaleAt(part, i), TextAt(i)(part[k])) == TypedValue(ScaleAt(s.heap, i), TextAt(i)(part[k]))
  {
    ScalesWithin(s.heap, part, k, i);
    OneScale(part[k], i);
    BetweenScales(TextAt(i)(part[k]), ScaleAt([part[k]], i), ScaleAt(part, i), ScaleAt(s.heap, i));
  }

  // --- a partitioned read, up to the scales in its schema ---------------------------------------------------

  /** A text typed at its own digits as at the widest scale of its column. */
  ghost predicate Steady(text: D.Cell, wider: nat) {
    TypedValue(D.Digits(text), text) == TypedValue(wider, text)
  }

  lemma {:induction false} StableText(schema: seq<Field>, cuts: seq<seq<Tuple>>, k: nat, i: nat, c: nat)
    requires StableTyping(Stored(schema, Flat(cuts)))
    requires k < |cuts| && i < |schema| && schema[i].dtype == Numeric && c < |D.Texts(Batches(schema, cuts)[k], i)|
    ensures Steady(D.Texts(Batches(schema, cuts)[k], i)[c], D.ScaleOver(Batches(schema, cuts), i))
  {
    var m := TextOfTuple(schema, cuts, k, i, c);
    OneScale(cuts[k][c], i);
  }

  /** Two columns hold the same values under their types. */
  ghost predicate SameValues(left: D.Batch, right: D.Batch, i: nat) {
    && i < |left.columns| && i < |right.columns| && |left.columns[i]| == |right.columns[i]|
    && forall c: nat :: c < |left.columns[i]| ==>
         CellOf(D.TypeAt(left.schema, i), left.columns[i][c]) == CellOf(D.TypeAt(right.schema, i), right.columns[i][c])
  }

  lemma {:induction false} SameBatchRows(left: D.Batch, right: D.Batch)
    requires |left.columns| == |right.columns| && forall i: nat :: i < |left.columns| ==> SameValues(left, right, i)
    ensures BatchRows(left) == BatchRows(right)
  {
    if left.columns != [] {
      assert SameValues(left, right, 0);
    }
    forall c: nat | c < |BatchRows(left)| ensures BatchRow(left, c) == BatchRow(right, c) {
      forall i: nat | i < |left.columns| ensures BatchRow(left, c)[i] == BatchRow(right, c)[i] {
        assert SameValues(left, right, i);
      }
    }
  }

  /** One NUMERIC column of a batch cast at one scale, or cast, read back and cast at another, under their types. */
  lemma {:induction false} SameCasts(raw: D.Batch, gathered: D.Batch, left: D.Batch, right: D.Batch, i: nat, scale: nat,
                                     reconciled: nat, wider: nat, differs: bool)
    requires i < |raw.columns| == |gathered.columns| == |left.columns| == |right.columns|
    requires right.columns[i] == Map(D.Caster(wider), D.Texts(raw, i))
    requires D.TypeAt(right.schema, i) == D.Dec(D.DECIMAL_PRECISION, wider)
    requires gathered.columns[i] == Map(D.Caster(scale), D.Texts(raw, i))
    requires !differs ==> left.columns[i] == gathered.columns[i] && scale == wider
    requires !differs ==> D.TypeAt(left.schema, i) == D.Dec(D.DECIMAL_PRECISION, scale)
    requires differs ==> left.columns[i] == Map(D.Caster(reconciled), D.Texts(gathered, i))
    requires differs ==> D.TypeAt(left.schema, i) == D.Dec(D.DECIMAL_PRECISION, reconciled)
    requires differs ==> |D.Texts(gathered, i)| == |D.Texts(raw, i)|
    requires differs ==> forall c: nat :: c < |D.Texts(raw, i)| ==>
               TypedValue(reconciled, D.Texts(gathered, i)[c]) == TypedValue(wider, D.Texts(raw, i)[c])
    ensures SameValues(left, right, i)
  {
  }

  /** A NUMERIC column of the gathered batches, rebuilt where its partitions differ, has the one read's values. */
  lemma {:induction false} NumericColumn(schema: seq<Field>, cuts: seq<seq<Tuple>>, parts: seq<seq<D.Batch>>,
                                         out: seq<D.Field>, k: nat, i: nat)
    requires parts != [] && P.AllRaw(DriverFields(schema), parts) && P.Concat(parts) == Batches(schema, cuts)
    requires StableTyping(Stored(schema, Flat(cuts)))
    requires i < |schema| && schema[i].dtype == Numeric
    requires k < |P.Concat(parts)| && k < |P.Gathered(DriverFields(schema), parts)|
    requires out == C.OutSchema(DriverFields(schema), parts)
    ensures SameValues(C.OutBatch(DriverFields(schema), parts, out, k),
                       P.Normalized(DriverFields(schema), P.Concat(parts)).batches[k], i)
  {
    var fields := DriverFields(schema);
    NumericIsNumeric(schema, i);
    C.NumericPath(fields, parts, k, i);
    RecastTexts(schema, cuts, parts, k, i);
    SameCasts(P.Concat(parts)[k], P.Gathered(fields, parts)[k], C.OutBatch(fields, parts, out, k),
              P.Normalized(fields, P.Concat(parts)).batches[k], i, P.PartScale(parts, k, i),
              D.ScaleOver(P.Gathered(fields, parts), i), D.ScaleOver(P.Concat(parts), i),
              i in C.Differing(fields, parts));
  }

  lemma {:induction false} RecastTexts(schema: seq<Field>, cuts: seq<seq<Tuple>>, parts: seq<seq<D.Batch>>, k: nat,
                                       i: nat)
    requires P.AllRaw(DriverFields(schema), parts) && P.Concat(parts) == Batches(schema, cuts)
    requires StableTyping(Stored(schema, Flat(cuts)))
    requires i < |schema| && schema[i].dtype == Numeric
    requires k < |P.Concat(parts)| && k < |P.Gathered(DriverFields(schema), parts)|
    ensures var raw, gathered := P.Concat(parts)[k], P.Gathered(DriverFields(schema), parts)[k];
            && |D.Texts(gathered, i)| == |D.Texts(raw, i)|
            && forall c: nat :: c < |D.Texts(raw, i)| ==>
                 TypedValue(D.ScaleOver(P.Gathered(DriverFields(schema), parts), i), D.Texts(gathered, i)[c]) ==
                   TypedValue(D.ScaleOver(P.Concat(parts), i), D.Texts(raw, i)[c])
  {
    var fields := DriverFields(schema);
    NumericIsNumeric(schema, i);
    C.GatheredText(fields, parts, k, i, 0);
    forall c: nat | c < |D.Texts(P.Concat(parts)[k], i)|
      ensures TypedValue(D.ScaleOver(P.Gathered(fields, parts), i), D.Texts(P.Gathered(fields, parts)[k], i)[c]) ==
                TypedValue(D.ScaleOver(P.Concat(parts), i), D.Texts(P.Concat(parts)[k], i)[c])
    {
      C.RecastBounds(fields, parts, k, i, c);
      StableText(schema, cuts, k, i, c);
      var reconciled, wider := D.ScaleOver(P.Gathered(fields, parts), i), D.ScaleOver(P.Concat(parts), i);
      RecastValue(D.Texts(P.Concat(parts)[k], i)[c], P.PartScale(parts, k, i), reconciled, wider);
    }
  }

  /** A column that is not NUMERIC passes both reads untouched. */
  lemma {:induction false} PlainColumn(schema: seq<Field>, cuts: seq<seq<Tuple>>, parts: seq<seq<D.Batch>>,
                                       out: seq<D.Field>, k: nat, i: nat)
    requires parts != [] && P.AllRaw(DriverFields(schema), parts) && P.Concat(parts) == Batches(schema, cuts)
    requires i < |schema| && schema[i].dtype != Numeric
    requires k < |P.Concat(parts)| && k < |P.Gathered(DriverFields(schema), parts)|
    requires out == C.OutSchema(DriverFields(schema), parts)
    ensures SameValues(C.OutBatch(DriverFields(schema), parts, out, k),
                       P.Normalized(DriverFields(schema), P.Concat(parts)).batches[k], i)
  {
    var fields := DriverFields(schema);
    NumericIsNumeric(schema, i);
    P.GatheredBatch(fields, parts, k);
    C.DifferingIff(fields, parts, i);
  }

  /** The two reads of some parts: the same rows, batch by batch. */
  lemma {:induction false} SameSplitRows(schema: seq<Field>, cuts: seq<seq<Tuple>>, parts: seq<seq<D.Batch>>,
                                         out: seq<D.Field>)
    requires parts != [] && P.AllRaw(DriverFields(schema), parts) && P.Concat(parts) == Batches(schema, cuts)
    requires StableTyping(Stored(schema, Flat(cuts)))
    requires out == C.OutSchema(DriverFields(schema), parts)
    ensures AllRows(C.OutBatches(DriverFields(schema), parts, out)) ==
              AllRows(P.Normalized(DriverFields(schema), P.Concat(parts)).batches)
  {
    var fields := DriverFields(schema);
    var left, right := C.OutBatches(fields, parts, out), P.Normalized(fields, P.Concat(parts)).batches;
    P.GatheredLength(fields, parts);
    forall k: nat | k < |left| ensures BatchRows(left[k]) == BatchRows(right[k]) {
      P.GatheredBatch(fields, parts, k);
      forall i: nat | i < |schema| ensures SameValues(left[k], right[k], i) {
        if schema[i].dtype == Numeric {
          NumericColumn(schema, cuts, parts, out, k, i);
        } else {
          PlainColumn(schema, cuts, parts, out, k, i);
        }
      }
      SameBatchRows(left[k], right[k]);
    }
    SameAllRows(left, right);
  }

  lemma {:induction false} SameAllRows(a: seq<D.Batch>, b: seq<D.Batch>)
    requires |a| == |b| && forall k :: 0 <= k < |a| ==> BatchRows(a[k]) == BatchRows(b[k])
    ensures AllRows(a) == AllRows(b)
  {
    if a != [] {
      assert forall k :: 0 <= k < |a[1..]| ==> a[1..][k] == a[k + 1] && b[1..][k] == b[k + 1];
      SameAllRows(a[1..], b[1..]);
    }
  }

  lemma {:induction false} SameSplitShape(schema: seq<Field>, parts: seq<seq<D.Batch>>)
    requires parts != []
    ensures SameShape(Map(FieldOf, C.OutSchema(DriverFields(schema), parts)),
                      Map(FieldOf, P.Normalized(DriverFields(schema), P.Concat(parts)).schema))
  {
    var fields := DriverFields(schema);
    var split, whole := C.OutSchema(fields, parts), P.Normalized(fields, P.Concat(parts)).schema;
    forall i: nat | i < |schema|
      ensures FieldOf(split[i]).name == FieldOf(whole[i]).name
      ensures SameType(FieldOf(split[i]).dtype, FieldOf(whole[i]).dtype)
    {
      NumericIsNumeric(schema, i);
      C.DifferingIff(fields, parts, i);
    }
  }

  /**
   * Where no value that fits alone is lost, a partitioned read has the rows of the one read, whether or not the
   * widest scales survive: only the scales in the schema can differ.
   */
  lemma {:induction false} StablePartsRead(schema: seq<Field>, cut: Cutter, heaps: seq<seq<Tuple>>)
    requires heaps != [] && schema != [] && StableTyping(Stored(schema, Flat(heaps)))
    ensures ReadInParts(schema, cut, heaps).Ok?
    ensures ReadInParts(schema, cut, heaps).value.rows == Read(Postgres, Stored(schema, Flat(heaps))).rows
    ensures SameShape(ReadInParts(schema, cut, heaps).value.schema, Read(Postgres, Stored(schema, Flat(heaps))).schema)
  {
    var parts, cuts := DriverParts(schema, cut, heaps), AllCuts(cut, heaps);
    DriverPartsAreRaw(schema, cut, heaps);
    CutsConcatenate(schema, cut, heaps);
    C.ParallelFrame(DriverFields(schema), parts);
    NormalizedTable(schema, cuts);
    SameSplitShape(schema, parts);
    SameSplitRows(schema, cuts, parts, C.OutSchema(DriverFields(schema), parts));
  }

  /** Typing a text at a part's scale, and what it became at a reconciled one, is typing it at the whole's. */
  lemma {:induction false} RecastValue(text: D.Cell, scale: nat, reconciled: nat, wider: nat)
    requires text.Null? || text.Numeral?
    requires D.Digits(text) <= scale <= wider <= D.MAX_FRACTION && reconciled <= wider
    requires D.Digits(D.TextOf(D.Dec(D.DECIMAL_PRECISION, scale), D.CastTo(scale, text))) <= reconciled
    requires TypedValue(D.Digits(text), text) == TypedValue(wider, text)
    ensures TypedValue(reconciled, D.TextOf(D.Dec(D.DECIMAL_PRECISION, scale), D.CastTo(scale, text))) ==
              TypedValue(wider, text)
  {
    BetweenScales(text, D.Digits(text), scale, wider);
    if D.CastTo(scale, text) != D.Null {
      C.CastDigits(text, scale);
      P.RecastIsCast(text, D.DECIMAL_PRECISION, scale, reconciled);
      BetweenScales(text, D.Digits(text), reconciled, wider);
    }
  }

  /**
   * A value that fits alone can be lost: an integer of 38 digits is read as itself alone, and as NULL beside 0.1,
   * which gives the column a fractional digit.
   */
  lemma {:induction false} ReadingLessShows(schema: seq<Field>, wide: Tuple, fine: Tuple, u: int)
    requires schema == [Field("n", Numeric)] && D.Fits(u) && !D.Fits(10 * u)
    requires TextAt(0)(wide) == D.Numeral(u, 0) && TextAt(0)(fine) == D.Numeral(1, 1)
    ensures Read(Postgres, Stored(schema, [wide])).rows == [[Dec(ValueOf(u, 0))]]
    ensures Read(Postgres, Stored(schema, [wide, fine])).rows[0] == [Null]
    ensures !StableTyping(Stored(schema, [wide, fine]))
  {
    PairScale(wide, fine);
    OneScale(wide, 0);
    WideCasts(u);
    OneColumn(schema, [wide], 0);
    OneColumn(schema, [wide, fine], 0);
    var s := Stored(schema, [wide, fine]);
    assert TypedValue(ScaleAt([s.heap[0]], 0), TextAt(0)(s.heap[0])) !=
      TypedValue(ScaleAt(s.heap, 0), TextAt(0)(s.heap[0]));
  }

  lemma {:induction false} PairScale(wide: Tuple, fine: Tuple)
    requires D.Digits(TextAt(0)(wide)) == 0 && D.Digits(TextAt(0)(fine)) == 1
    ensures ScaleAt([wide, fine], 0) == 1
  {
    OneScale(wide, 0);
    OneScale(fine, 0);
    MapAppend(TextAt(0), [wide], [fine]);
    WidestAppend(Map(TextAt(0), [wide]), Map(TextAt(0), [fine]));
    assert [wide] + [fine] == [wide, fine];
  }

  lemma {:induction false} OneColumn(schema: seq<Field>, heap: seq<Tuple>, k: nat)
    requires schema == [Field("n", Numeric)] && k < |heap|
    ensures Read(Postgres, Stored(schema, heap)).rows[k] == [TypedValue(ScaleAt(heap, 0), TextAt(0)(heap[k]))]
  {
  }

  lemma {:induction false} WideCasts(u: int)
    requires D.Fits(u) && !D.Fits(10 * u)
    ensures D.CastTo(0, D.Numeral(u, 0)) == D.Decimal(u)
    ensures D.CastTo(1, D.Numeral(u, 0)) == D.Null
  {
    assert D.Pow10(0) == 1 && D.Pow10(1) == 10;
  }
}
