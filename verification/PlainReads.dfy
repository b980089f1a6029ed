/** What a structured scan reads, said of the stored tuples, the truth of its filter and its column names alone. */
module PlainReads {
  import opened Outcomes
  import opened Ir
  import opened Relations
  import opened Partition
  import opened Sources
  import opened Typing
  import opened Injection
  import opened InjectionProofs

  // --- the relation, the rows and the columns of a scan --------------------------------------------------

  /** The table a path's pinned connection has under a name, else the stored one. */
  function Seen(w: World, pins: Pins, spec: DsSpec, schema: Option<string>, table: string): Option<Stored> {
    if spec.kind == DuckDb && schema.None? && spec.uri in pins && table in pins[spec.uri] then
      var shipped := pins[spec.uri][table];
      Some(Stored(shipped.schema, seq(|shipped.rows|, k requires 0 <= k < |shipped.rows| =>
        Tuple(0, shipped.rows[k], []))))
    else w.stored(spec, schema, table)
  }

  predicate Names(schema: seq<Field>, name: string) {
    exists k :: 0 <= k < |schema| && schema[k].name == name
  }

  predicate Named(schema: seq<Field>, names: seq<string>) {
    forall j :: 0 <= j < |names| ==> Names(schema, names[j])
  }

  /** The scan's own filter is absent, or true of the row. */
  predicate Passes(w: World, scan: ScanSpec, schema: seq<Field>, t: Tuple) {
    scan.filter.Some? ==> w.truth(scan.filter.value, schema, t.row) == True
  }

  /** `out` holds the named columns of `t`: values and printed digits. */
  predicate CutFrom(schema: seq<Field>, names: seq<string>, t: Tuple, out: Tuple) {
    && out.page == t.page && |out.row| == |out.digits| == |names|
    && forall j: nat :: j < |names| ==>
         var k := IndexOf(schema, names[j]);
         && k.Some? && out.row[j] == ValueAt(t, k.value) && out.digits[j] == DigitsAt(t, k.value)
  }

  /** The named fields, in the order asked for. */
  predicate FieldsOf(schema: seq<Field>, names: seq<string>, out: seq<Field>) {
    && |out| == |names|
    && forall j :: 0 <= j < |names| ==>
         && IndexOf(schema, names[j]).Some? && out[j] == schema[IndexOf(schema, names[j]).value]
  }

  /** The tuples that pass, in stored order, each cut to the named columns. */
  ghost predicate ReadsOf(schema: seq<Field>, names: seq<string>, passing: seq<Tuple>, read: seq<Tuple>) {
    |read| == |passing| && forall k :: 0 <= k < |passing| ==> CutFrom(schema, names, passing[k], read[k])
  }

  function Passing(w: World, scan: ScanSpec, schema: seq<Field>): Tuple -> bool {
    (t: Tuple) => Passes(w, scan, schema, t)
  }

  function PassingIn(w: World, scan: ScanSpec, schema: seq<Field>, lo: nat, hi: nat): Tuple -> bool {
    (t: Tuple) => lo <= t.page < hi && Passes(w, scan, schema, t)
  }

  /** A tuple whose cell is not NULL and stands in the first column of the keys. */
  predicate IsKeyed(schema: seq<Field>, column: string, keys: Table, t: Tuple) {
    && IndexOf(schema, column).Some? && ValueAt(t, IndexOf(schema, column).value) != Null
    && exists k :: 0 <= k < |keys.rows| && keys.rows[k] != []
                   && keys.rows[k][0] == ValueAt(t, IndexOf(schema, column).value)
  }

  function PassingKeyed(w: World, scan: ScanSpec, schema: seq<Field>, column: string, keys: Table): Tuple -> bool {
    (t: Tuple) => Passes(w, scan, schema, t) && IsKeyed(schema, column, keys, t)
  }

  /**
   * Shipping hides exactly the stored tables of DuckDB's default schema that have the path and the name of a shipped
   * one; every other table, and everything else of the world, is as before.
   */
  lemma {:induction false} ShippingHides(w: World, pins: Pins, spec: DsSpec, schema: Option<string>, table: string)
    ensures Now(w, pins).stored(spec, schema, table) ==
              if spec.kind == DuckDb && (schema.None? || schema.value == "main")
                 && spec.uri in pins && table in pins[spec.uri]
              then None else w.stored(spec, schema, table)
    ensures Now(w, pins).(stored := w.stored) == w
  {
    assert (spec.uri, table) in ShippedNames(pins) <==> spec.uri in pins && table in pins[spec.uri];
  }

  // --- what one query answers ------------------------------------------------------------------------------

  lemma {:induction false} NamesResolve(schema: seq<Field>, names: seq<string>)
    ensures HasColumns(schema, names) <==> Named(schema, names)
  {
    forall j | 0 <= j < |names| ensures IndexOf(schema, names[j]).Some? <==> Names(schema, names[j]) {
      assert IndexOf(schema, names[j]).Some? <==> exists k :: 0 <= k < |schema| && schema[k].name == names[j];
    }
  }

  /** A selection's tuples are cut from the kept ones. */
  lemma {:induction false} SelectionReads(w: World, temps: Temps, s: Stored, names: seq<string>, ps: seq<Pred>,
                                          keep: Tuple -> bool)
    requires HasColumns(s.schema, names)
    requires forall t: Tuple :: AllTrue(w, temps, s.schema, ps, t) <==> keep(t)
    ensures ReadsOf(s.schema, names, Filter(keep, s.heap), SelectTuples(w, temps, s, Some(names), ps))
    ensures FieldsOf(s.schema, names, ProjectSchema(s.schema, Some(names)))
  {
    forall t: Tuple ensures Keeper(w, temps, s.schema, ps)(t) == keep(t) {
      WhereIsAll(w, temps, s.schema, ps, t);
    }
    FilterCongruence(Keeper(w, temps, s.schema, ps), keep, s.heap);
    forall t: Tuple ensures CutFrom(s.schema, names, t, Projector(s.schema, Some(names))(t)) {
    }
  }

  /** The scan's own filter, alone and beside another predicate. */
  lemma {:induction false} OwnFilterPasses(w: World, temps: Temps, scan: ScanSpec, schema: seq<Field>, t: Tuple)
    ensures AllTrue(w, temps, schema, StaticFilter(scan), t) <==> Passes(w, scan, schema, t)
  {
    if scan.filter.Some? {
      var own := Matches(scan.filter.value);
      assert PredTruth(w, temps, schema, [own][0], t) == w.truth(scan.filter.value, schema, t.row);
    }
  }

  lemma {:induction false} OneTrue(w: World, temps: Temps, schema: seq<Field>, p: Pred, t: Tuple)
    ensures AllTrue(w, temps, schema, [p], t) <==> PredTruth(w, temps, schema, p, t) == True
  {
    assert [p][0] == p;
  }

  /** A plain structured scan is refused exactly where its table or a column is unknown. */
  lemma {:induction false} PlainScanSucceedsIff(w: World, pins: Pins, ds: string, scan: ScanSpec)
    requires scan.rawSql.None?
    ensures var r := FetchTuples(w, pins, ds, scan, None);
            if ds !in w.registry then r == Err(NotRegistered(ds))
            else if scan.table.None? || scan.columns == [] then r == Err(BadSpec)
            else
              var s := Seen(w, pins, w.registry[ds], scan.schema, scan.table.value);
              if s.Some? && Named(s.value.schema, scan.columns) then r.Ok? else r == Err(SourceRefused)
  {
    if ds in w.registry && scan.table.Some? && scan.columns != [] {
      SeenIsNamed(w, pins, w.registry[ds], scan);
      assert StaticFilter(scan) + [] == StaticFilter(scan);
      var s := Seen(w, pins, w.registry[ds], scan.schema, scan.table.value);
      if s.Some? {
        NamesResolve(s.value.schema, scan.columns);
      }
    }
  }

  lemma {:induction false} SeenIsNamed(w: World, pins: Pins, spec: DsSpec, scan: ScanSpec)
    requires scan.rawSql.None? && scan.table.Some?
    ensures FromItem(w, spec, VisibleTemps(pins, spec), FromOf(scan)) ==
              Seen(w, pins, spec, scan.schema, scan.table.value)
  {
    var seen := Seen(w, pins, spec, scan.schema, scan.table.value);
    if spec.kind == DuckDb && scan.schema.None? && spec.uri in pins && scan.table.value in pins[spec.uri] {
      assert WithoutPages(pins[spec.uri][scan.table.value].rows) == seen.value.heap;
    }
  }

  /**
   * A plain structured scan reads the named columns of exactly the tuples for which its own filter is absent or true,
   * in stored order, then keeps the first of each row if it is DISTINCT, then as many as its LIMIT.
   */
  lemma {:induction false} PlainScanReads(w: World, pins: Pins, ds: string, scan: ScanSpec)
    returns (read: seq<Tuple>)
    requires scan.rawSql.None? && FetchTuples(w, pins, ds, scan, None).Ok?
    ensures ds in w.registry && scan.table.Some?
    ensures var answer := FetchTuples(w, pins, ds, scan, None).value;
            var s := Seen(w, pins, w.registry[ds], scan.schema, scan.table.value);
            && s.Some? && FieldsOf(s.value.schema, scan.columns, answer.schema)
            && ReadsOf(s.value.schema, scan.columns, Filter(Passing(w, scan, s.value.schema), s.value.heap), read)
            && (!scan.distinct && scan.limit.None? ==> answer.heap == read)
            && LimitedTo(scan.limit, if scan.distinct then Distinct(RowsIn(read)) else RowsIn(read),
                         RowsIn(answer.heap))
            && forall t :: t in answer.heap ==> t in read
  {
    var spec, temps := w.registry[ds], VisibleTemps(pins, w.registry[ds]);
    SeenIsNamed(w, pins, spec, scan);
    assert StaticFilter(scan) + [] == StaticFilter(scan);
    var s := Seen(w, pins, spec, scan.schema, scan.table.value).value;
    forall t: Tuple ensures AllTrue(w, temps, s.schema, StaticFilter(scan), t) <==> Passing(w, scan, s.schema)(t) {
      OwnFilterPasses(w, temps, scan, s.schema, t);
    }
    SelectionReads(w, temps, s, scan.columns, StaticFilter(scan), Passing(w, scan, s.schema));
    read := SelectTuples(w, temps, s, Some(scan.columns), StaticFilter(scan));
    FirstsAreElements(read);
  }

  /** As many of the first elements as a limit allows. */
  predicate LimitedTo<T(==)>(limit: Option<nat>, all: seq<T>, out: seq<T>) {
    && |out| == (if limit.Some? && limit.value < |all| then limit.value else |all|)
    && out == all[..|out|]
  }

  lemma {:induction false} FirstsAreElements(heap: seq<Tuple>)
    ensures forall t :: t in FirstOfEach(heap) ==> t in heap
  {
    if heap != [] {
      FirstsAreElements(heap[..|heap| - 1]);
    }
  }

  /** A relation without NUMERIC columns, and any relation of another source than Postgres, is read as it is. */
  lemma {:induction false} ReadAsStored(kind: DsKind, s: Stored)
    ensures |Read(kind, s).rows| == |s.heap|
    ensures kind != Postgres ==>
              && Read(kind, s).schema == s.schema
              && forall k :: 0 <= k < |s.heap| ==> Read(kind, s).rows[k] == s.heap[k].row
    ensures kind == Postgres && (forall i :: 0 <= i < |s.schema| ==> s.schema[i].dtype != Numeric) ==>
              && Read(kind, s).schema == s.schema
              && forall k: nat, i: nat :: k < |s.heap| && i < |s.schema| ==>
                   |Read(kind, s).rows[k]| == |s.schema| && Read(kind, s).rows[k][i] == ValueAt(s.heap[k], i)
  {
  }

  /** What a connector returns for a scan is the answer, typed as its source's reads are. */
  lemma {:induction false} FetchIsRead(w: World, pins: Pins, ds: string, scan: ScanSpec, extra: Option<seq<Pred>>)
    ensures var answer, r := FetchTuples(w, pins, ds, scan, extra), FetchScan(w, pins, ds, scan, extra);
            if answer.Ok? then ds in w.registry && r == Ok(Read(w.registry[ds].kind, answer.value))
            else r == Err(answer.error)
  {
  }

  /** A plain prerendered scan reads what its SQL answers. */
  lemma {:induction false} RawScanReads(w: World, pins: Pins, ds: string, scan: ScanSpec)
    requires scan.rawSql.Some? && ds in w.registry
    ensures var shipped: Temps := if w.registry[ds].kind == DuckDb && w.registry[ds].uri in pins
                                  then pins[w.registry[ds].uri] else map[];
            var answer := w.raw(w.registry[ds], scan.rawSql.value, shipped);
            FetchTuples(w, pins, ds, scan, None) == if answer.Some? then Ok(answer.value) else Err(SourceRefused)
  {
  }

  /** One partition reads the named columns of exactly the tuples on its pages that the scan's own filter passes. */
  lemma {:induction false} PartitionReads(w: World, spec: DsSpec, scan: ScanSpec, lo: nat, hi: nat)
    requires scan.table.Some?
    ensures var s := w.stored(spec, scan.schema, scan.table.value);
            var answer := Answer(w, spec, map[], PartitionQuery(scan, (lo, hi)));
            && (answer.Some? <==> s.Some? && Named(s.value.schema, scan.columns))
            && (answer.Some? ==>
                  && FieldsOf(s.value.schema, scan.columns, answer.value.schema)
                  && ReadsOf(s.value.schema, scan.columns,
                             Filter(PassingIn(w, scan, s.value.schema, lo, hi), s.value.heap), answer.value.heap))
  {
    var found, q := w.stored(spec, scan.schema, scan.table.value), PartitionQuery(scan, (lo, hi));
    if found.Some? {
      var s := found.value;
      NamesResolve(s.schema, scan.columns);
      forall k | 0 <= k < |q.where_| ensures PredColumns(q.where_[k]) == [] && !q.where_[k].InTemp? {
      }
      if HasColumns(s.schema, scan.columns) {
        forall t: Tuple ensures AllTrue(w, map[], s.schema, q.where_, t) <==> PassingIn(w, scan, s.schema, lo, hi)(t) {
          TrueOfBoth(w, map[], s.schema, [CtidIn(lo, hi)], StaticFilter(scan), t);
          OneTrue(w, map[], s.schema, CtidIn(lo, hi), t);
          OwnFilterPasses(w, map[], scan, s.schema, t);
        }
        SelectionReads(w, map[], s, scan.columns, q.where_, PassingIn(w, scan, s.schema, lo, hi));
      }
    }
  }

  /**
   * The semi-join reads the named columns of exactly the stored tuples that the scan's own filter passes and whose
   * column is one of the ingested keys.
   */
  lemma {:induction false} SemiJoinReads(w: World, spec: DsSpec, scan: ScanSpec, keys: Table, column: string)
    requires scan.rawSql.None? && scan.table.Some? && scan.columns != [] && keys.schema != []
    requires scan.schema.Some? || scan.table.value != DYN_KEYS_TEMP_TABLE
    ensures TempJoinQuery(scan, KeyName(keys), column).Ok?
    ensures var s := w.stored(spec, scan.schema, scan.table.value);
            var answer := Answer(w, spec, KeyTemps(keys), TempJoinQuery(scan, KeyName(keys), column).value);
            && (answer.Some? <==> s.Some? && Named(s.value.schema, scan.columns + [column]))
            && (answer.Some? ==>
                  && FieldsOf(s.value.schema, scan.columns, answer.value.schema)
                  && ReadsOf(s.value.schema, scan.columns,
                             Filter(PassingKeyed(w, scan, s.value.schema, column, keys), s.value.heap),
                             answer.value.heap))
  {
    var found, q := w.stored(spec, scan.schema, scan.table.value), TempJoinQuery(scan, KeyName(keys), column).value;
    assert FromItem(w, spec, KeyTemps(keys), q.from) == found;
    if found.Some? {
      SemiJoinResolves(found.value.schema, scan, keys, column);
      if Resolves(KeyTemps(keys), found.value.schema, q) {
        assert (scan.columns + [column])[|scan.columns|] == column;
        SemiJoinSelects(w, found.value, scan, keys, column);
      }
    }
  }

  lemma {:induction false} SemiJoinResolves(schema: seq<Field>, scan: ScanSpec, keys: Table, column: string)
    requires scan.rawSql.None? && scan.table.Some? && scan.columns != [] && keys.schema != []
    ensures TempJoinQuery(scan, KeyName(keys), column).Ok?
    ensures Resolves(KeyTemps(keys), schema, TempJoinQuery(scan, KeyName(keys), column).value) <==>
              Named(schema, scan.columns + [column])
    ensures Named(schema, scan.columns + [column]) ==> HasColumns(schema, scan.columns + [column])
  {
    NamesResolve(schema, scan.columns + [column]);
    var q := TempJoinQuery(scan, KeyName(keys), column).value;
    var own := StaticFilter(scan);
    NamesResolve(schema, scan.columns);
    NamesResolve(schema, [column]);
    assert Named(schema, scan.columns + [column]) <==> Named(schema, scan.columns) && Named(schema, [column]) by {
      assert forall j :: 0 <= j < |scan.columns| ==> (scan.columns + [column])[j] == scan.columns[j];
      assert (scan.columns + [column])[|scan.columns|] == column && [column][0] == column;
    }
    assert q.where_[|own|] == InTemp(column, KeyName(keys), DYN_KEYS_TEMP_TABLE);
    assert PredColumns(q.where_[|own|]) == [column];
    assert forall k :: 0 <= k < |own| ==> q.where_[k] == own[k] && PredColumns(own[k]) == [] && !own[k].InTemp?;
    assert IndexOf(keys.schema, KeyName(keys)).Some? by {
      assert keys.schema[0].name == KeyName(keys);
    }
  }

  lemma {:induction false} SemiJoinSelects(w: World, s: Stored, scan: ScanSpec, keys: Table, column: string)
    requires scan.rawSql.None? && scan.table.Some? && scan.columns != [] && keys.schema != []
    requires HasColumns(s.schema, scan.columns) && IndexOf(s.schema, column).Some?
    ensures var ps := StaticFilter(scan) + [InTemp(column, KeyName(keys), DYN_KEYS_TEMP_TABLE)];
            && ReadsOf(s.schema, scan.columns, Filter(PassingKeyed(w, scan, s.schema, column, keys), s.heap),
                       SelectTuples(w, KeyTemps(keys), s, Some(scan.columns), ps))
            && FieldsOf(s.schema, scan.columns, ProjectSchema(s.schema, Some(scan.columns)))
  {
    var temps, p := KeyTemps(keys), InTemp(column, KeyName(keys), DYN_KEYS_TEMP_TABLE);
    forall t: Tuple
      ensures AllTrue(w, temps, s.schema, StaticFilter(scan) + [p], t) <==>
                PassingKeyed(w, scan, s.schema, column, keys)(t)
    {
      TrueOfBoth(w, temps, s.schema, StaticFilter(scan), [p], t);
      OneTrue(w, temps, s.schema, p, t);
      OwnFilterPasses(w, temps, scan, s.schema, t);
      MembershipIsKeyed(w, s.schema, column, keys, t);
    }
    SelectionReads(w, temps, s, scan.columns, StaticFilter(scan) + [p],
                   PassingKeyed(w, scan, s.schema, column, keys));
  }

  lemma {:induction false} MembershipIsKeyed(w: World, schema: seq<Field>, column: string, keys: Table, t: Tuple)
    requires keys.schema != []
    ensures PredTruth(w, KeyTemps(keys), schema, InTemp(column, KeyName(keys), DYN_KEYS_TEMP_TABLE), t) == True <==>
              IsKeyed(schema, column, keys, t)
  {
    IngestedKeys(keys);
    var values, v := KeyValues(keys), Cell(schema, t.row, column);
    InTruthIsMembership(v, values);
    assert forall k :: 0 <= k < |keys.rows| ==> values[k] == if keys.rows[k] == [] then Null else keys.rows[k][0];
    if v != Null && v in values {
      var k :| 0 <= k < |values| && values[k] == v;
      assert keys.rows[k] != [] && keys.rows[k][0] == v;
    }
    if IsKeyed(schema, column, keys, t) {
      var k :| 0 <= k < |keys.rows| && keys.rows[k] != [] && keys.rows[k][0] == v;
      assert values[k] == v;
    }
  }
}
