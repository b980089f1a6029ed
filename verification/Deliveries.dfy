/** Which delivery a probe gets, when a marked read is refused, and that delivering loses no success. */
module Deliveries {
  import opened Outcomes
  import opened Ir
  import opened Relations
  import opened Partition
  import opened Sources
  import opened Typing
  import opened Injection
  import opened InjectionProofs
  import opened ParallelRead
  import opened ScanModifiers
  import P = DecimalProofs

  // --- the choice, in numbers -----------------------------------------------------------------------------

  /** The keys ask for most of the column's values: over 15 percent of them on Postgres, over 40 elsewhere. */
  lemma {:induction false} MostOfTableIff(w: World, spec: DsSpec, scan: ScanSpec, column: string, numKeys: nat,
                                          ndv: Option<nat>)
    requires scan.table.Some?
    ensures var percent := if spec.kind == Postgres then 15 else 40;
            var estimate := w.estimate(spec, scan.schema, scan.table.value, column, numKeys);
            FetchesMostOfTable(w, spec, scan, column, numKeys, ndv) <==>
              if ndv.Some? && ndv.value > 0 then 100 * numKeys > percent * ndv.value
              else estimate.Some? && 100.0 * estimate.value > percent as real
  {
    if ndv.Some? && ndv.value > 0 {
      OverPercent(numKeys, ndv.value, 15, 0.15);
      OverPercent(numKeys, ndv.value, 40, 0.40);
    }
  }

  lemma {:induction false} OverPercent(n: nat, d: nat, percent: nat, fraction: real)
    requires d > 0 && percent as real == 100.0 * fraction
    ensures n as real / d as real > fraction <==> 100 * n > percent * d
  {
    var q := n as real / d as real;
    assert q * d as real == n as real;
    if q > fraction {
      assert (q - fraction) * d as real > 0.0;
    } else {
      assert (fraction - q) * d as real >= 0.0;
    }
    assert fraction * d as real * 100.0 == percent as real * d as real == (percent * d) as real;
  }

  /** The keys go to the source at all: they are too many for a list, or the island holds the filter. */
  predicate Pushed(scan: ScanSpec, numKeys: nat) {
    numKeys >= 2000 || (numKeys > 0 && scan.injectedSql.Some?)
  }

  /** A session of the source can hold the keys in a table. */
  predicate HoldsKeys(spec: DsSpec, keys: Table) {
    || spec.kind == Postgres
    || (spec.kind == DuckDb && |keys.rows| <= 2_000_000 && keys.schema != [] && !keys.schema[0].dtype.OtherType?)
  }

  /** Reading the table whole is cheaper: Postgres has no index to join by, or most of the table is wanted. */
  predicate ReadsWhole(w: World, spec: DsSpec, scan: ScanSpec, column: string, numKeys: nat, ndv: Option<nat>) {
    scan.table.Some? &&
    ((spec.kind == Postgres && !w.indexed(spec, scan.schema, scan.table.value, column))
     || FetchesMostOfTable(w, spec, scan, column, numKeys, ndv))
  }

  /** Each delivery is chosen exactly for its own key counts, sources and statistics. */
  lemma {:induction false} ChosenIff(w: World, spec: DsSpec, scan: ScanSpec, column: string, keys: Table,
                                     ndv: Option<nat>)
    ensures var delivery, n := Chosen(w, spec, scan, column, keys, ndv), |keys.rows|;
            && (delivery == NothingMatches <==> n == 0)
            && (delivery == InlineList <==> 0 < n < 2000 && scan.injectedSql.None?)
            && (delivery == ExtrasAlone <==> Pushed(scan, n) && !HoldsKeys(spec, keys))
            && (delivery == WholeProbe <==>
                  Pushed(scan, n) && HoldsKeys(spec, keys) && ReadsWhole(w, spec, scan, column, n, ndv))
            && (delivery == SemiJoin <==>
                  Pushed(scan, n) && HoldsKeys(spec, keys) && !ReadsWhole(w, spec, scan, column, n, ndv))
  {
  }

  /** Keys are never pushed to Parquet, which would refuse them. */
  lemma {:induction false} ParquetTakesNoKeys(w: World, spec: DsSpec, scan: ScanSpec, column: string, keys: Table,
                                              ndv: Option<nat>)
    requires spec.kind == Parquet
    ensures Chosen(w, spec, scan, column, keys, ndv) != SemiJoin
    ensures TempTableProbe(w, spec, scan, keys, column) == Err(BadSpec)
  {
    ChosenIff(w, spec, scan, column, keys, ndv);
  }

  /** An extra key set is a list of the filter exactly when it has between 1 and 1999 keys. */
  lemma {:induction false} RidesIff(extras: seq<KeySet>, i: nat)
    requires i < |extras|
    ensures 1 <= |extras[i].keys.rows| <= 1999 ==> InListOf(extras[i]) in ExtraFilters(extras)
    ensures extras[i] in Filter(Riders(), extras) <==> 1 <= |extras[i].keys.rows| <= 1999
  {
    ExtraFiltersExactly(extras, InListOf(extras[i]));
    FilterWithin(Riders(), extras);
  }

  // --- marked reads -----------------------------------------------------------------------------------------

  /** A spec marked `parallel` is refused as malformed exactly when it is not a plain read of a Postgres table. */
  lemma {:induction false} MarkRefusedIff(w: World, pins: Pins, ds: string, scan: ScanSpec)
    requires scan.parallel && ds in w.registry
    ensures FetchSource(w, pins, ds, scan) == Err(BadSpec) <==>
              w.registry[ds].kind != Postgres || scan.table.None? || scan.distinct || scan.limit.Some?
    ensures w.registry[ds].kind == Postgres && scan.table.Some? && !scan.distinct && scan.limit.None? ==>
              FetchSource(w, pins, ds, scan) == ParallelScan(w, ds, scan)
  {
    if w.registry[ds].kind == Postgres && scan.table.Some? {
      var pages := w.pages(w.registry[ds], scan.schema, scan.table.value);
      if pages.Some? {
        ScansPlannedRanges(w, ds, scan, pages.value);
        RangesRefusePlainly(w, w.registry[ds], scan, PlannedRanges(pages.value));
      }
    }
  }

  /** A partitioned read fails exactly where the table or a column is unknown. */
  lemma {:induction false} RangesRefusePlainly(w: World, spec: DsSpec, scan: ScanSpec, ranges: seq<(nat, nat)>)
    requires scan.table.Some? && ranges != []
    ensures ReadRangesOf(w, spec, scan, ranges).Err? ==> ReadRangesOf(w, spec, scan, ranges) == Err(SourceRefused)
    ensures Answerable(w, spec, scan) && scan.columns != [] ==> ReadRangesOf(w, spec, scan, ranges).Ok?
    ensures ReadRangesOf(w, spec, scan, ranges).Ok? ==> Answerable(w, spec, scan)
  {
    GatheredAt(w, spec, scan, ranges, 0);
    var parts := GatherPartitions(w, spec, scan, ranges);
    if parts.Ok? {
      PartsErrPlainly(parts.value.schema, w.cut, parts.value.heaps);
      if scan.columns != [] {
        AnsweredIff(w, spec, scan, ranges[0]);
        PartsReadIff(parts.value.schema, w.cut, parts.value.heaps);
      }
    }
  }

  lemma {:induction false} PartsErrPlainly(schema: seq<Field>, cut: Cutter, heaps: seq<seq<Tuple>>)
    requires heaps != []
    ensures ReadInParts(schema, cut, heaps).Err? ==> ReadInParts(schema, cut, heaps) == Err(SourceRefused)
  {
    P.PartErrors(DriverFields(schema), DriverParts(schema, cut, heaps));
  }

  /** A parallel read plans its ranges for eight partitions and the low 32 bits of the catalog's page count. */
  lemma {:induction false} PlannedForEight(pages: nat)
    requires pages < 0x1_0000_0000
    ensures PlannedRanges(pages) == PlannedRanges(pages + 0x1_0000_0000) == Ranges(pages, 8)
  {
    assert pages % 0x1_0000_0000 == (pages + 0x1_0000_0000) % 0x1_0000_0000 == pages;
  }

  /** Eight partitions of a larger table are 8 to 15 ranges of equal chunks. */
  lemma {:induction false} RangesForEight(pages: nat)
    requires 8 <= pages < 0x1_0000_0000
    ensures 8 <= |Ranges(pages, 8)| <= 15
    ensures forall i: nat :: i < |Ranges(pages, 8)| ==> Ranges(pages, 8)[i].0 == i * (pages / 8)
  {
    PartitionsAreCapped(pages, 8);
    RangesAreChunks(pages, 8);
  }

  /** A table of fewer pages is one range a page. */
  lemma {:induction false} RangePerPage(pages: nat)
    requires 0 < pages < 8
    ensures |Ranges(pages, 8)| == pages
    ensures forall i: nat :: i < pages ==> Ranges(pages, 8)[i].0 == i
  {
    PartitionsAreCapped(pages, 8);
    RangesAreChunks(pages, 8);
    RangeCountIsExactIff(pages, 8);
    assert pages / pages == 1 && pages % pages == 0;
  }

  /**
   * Partitions are gathered in range order under the schema of the first, or end in the error of the first that fails.
   */
  lemma {:induction false} GatheredInOrder(ask: ((nat, nat)) -> Result<Stored>, ranges: seq<(nat, nat)>)
    requires ranges != []
    ensures match Gather(ask, ranges)
            case Ok(parts) =>
              && |parts.heaps| == |ranges| && ask(ranges[0]).Ok? && parts.schema == ask(ranges[0]).value.schema
              && forall i :: 0 <= i < |ranges| ==> ask(ranges[i]).Ok? && parts.heaps[i] == ask(ranges[i]).value.heap
            case Err(error) =>
              exists i :: 0 <= i < |ranges| && ask(ranges[i]) == Err(error)
                          && forall k :: 0 <= k < i ==> ask(ranges[k]).Ok?
  {
    if |ranges| > 1 && ask(ranges[0]).Ok? {
      var rest := ranges[1..];
      GatheredInOrder(ask, rest);
      match Gather(ask, rest)
      case Ok(_) => assert forall i :: 0 < i < |ranges| ==> ranges[i] == rest[i - 1];
      case Err(error) =>
        var i :| 0 <= i < |rest| && ask(rest[i]) == Err(error) && forall k :: 0 <= k < i ==> ask(rest[k]).Ok?;
        assert ranges[i + 1] == rest[i] && forall k :: 0 < k < i + 1 ==> ranges[k] == rest[k - 1];
    }
  }

  // --- success ----------------------------------------------------------------------------------------------

  /** The injected columns are columns of what the plain scan answers. */
  predicate Reducing(answer: Stored, column: string, extras: seq<KeySet>) {
    && IndexOf(answer.schema, column).Some?
    && forall i :: 0 <= i < |extras| ==> IndexOf(answer.schema, extras[i].column).Some?
  }

  /** A dynamic filter of lists over answered columns is never refused. */
  lemma {:induction false} FilteredSucceeds(w: World, pins: Pins, ds: string, scan: ScanSpec, more: seq<Pred>)
    requires FetchTuples(w, pins, ds, scan, None).Ok?
    requires var answer := FetchTuples(w, pins, ds, scan, None).value;
             forall p :: p in more ==> !p.InTemp? && HasColumns(answer.schema, PredColumns(p))
    ensures FetchTuples(w, pins, ds, scan, Some(more)).Ok?
  {
    var spec := w.registry[ds];
    var temps := VisibleTemps(pins, spec);
    var s := FromItem(w, spec, temps, FromOf(scan)).value;
    var answer := FetchTuples(w, pins, ds, scan, None).value;
    var q := ScanQuery(scan, Some(more)).value;
    assert StaticFilter(scan) + [] == StaticFilter(scan);
    if scan.rawSql.None? {
      assert HasColumns(s.schema, scan.columns);
      assert answer.schema == ProjectSchema(s.schema, Some(scan.columns));
    }
    forall k | 0 <= k < |q.where_| ensures !q.where_[k].InTemp? && HasColumns(s.schema, PredColumns(q.where_[k])) {
      if q.where_[k] in more {
        AnsweredColumns(s.schema, OutputColumns(scan), PredColumns(q.where_[k]));
      }
    }
    assert Resolves(temps, s.schema, q);
  }

  lemma {:induction false} AnsweredColumns(schema: seq<Field>, columns: Option<seq<string>>, names: seq<string>)
    requires (columns.Some? ==> HasColumns(schema, columns.value)) && HasColumns(ProjectSchema(schema, columns), names)
    ensures HasColumns(schema, names)
  {
    if columns.Some? {
      var out := ProjectSchema(schema, columns);
      forall j | 0 <= j < |names| ensures IndexOf(schema, names[j]).Some? {
        var k := IndexOf(out, names[j]).value;
        assert out[k] == schema[IndexOf(schema, columns.value[k]).value];
        assert schema[IndexOf(schema, columns.value[k]).value].name == names[j];
      }
    }
  }

  /** The filter of a delivery that is a scan lists keys of answered columns only. */
  lemma {:induction false} FilterColumns(answer: Stored, column: string, keys: Table, extras: seq<KeySet>, p: Pred)
    requires Reducing(answer, column, extras)
    requires p == Never || p == InList(column, KeyValues(keys)) || p in ExtraFilters(extras)
    ensures !p.InTemp? && HasColumns(answer.schema, PredColumns(p))
  {
    if p in ExtraFilters(extras) {
      ExtraFiltersExactly(extras, p);
    }
  }

  lemma {:induction false} ScanSucceeds(w: World, pins: Pins, ds: string, scan: ScanSpec, column: string, keys: Table,
                                        extras: seq<KeySet>, delivery: Delivery)
    requires FetchTuples(w, pins, ds, scan, None).Ok?
    requires Reducing(FetchTuples(w, pins, ds, scan, None).value, column, extras)
    ensures FetchScan(w, pins, ds, scan,
                      FilterOf(delivery, InList(column, KeyValues(keys)), ExtraFilters(extras))).Ok?
  {
    var primary := InList(column, KeyValues(keys));
    var filter := FilterOf(delivery, primary, ExtraFilters(extras));
    if filter.Some? {
      forall p | p in filter.value
        ensures !p.InTemp? && HasColumns(FetchTuples(w, pins, ds, scan, None).value.schema, PredColumns(p))
      {
        assert delivery.InlineList? ==> p in [primary] || p in ExtraFilters(extras);
        FilterColumns(FetchTuples(w, pins, ds, scan, None).value, column, keys, extras, p);
      }
      FilteredSucceeds(w, pins, ds, scan, filter.value);
    }
  }

  lemma {:induction false} SemiJoinSucceeds(w: World, pins: Pins, ds: string, scan: ScanSpec, column: string,
                                            keys: Table)
    requires ds in w.registry && w.registry[ds].kind != Parquet && keys.schema != []
    requires FetchTuples(w, pins, ds, scan, None).Ok?
    requires IndexOf(FetchTuples(w, pins, ds, scan, None).value.schema, column).Some?
    requires SessionAgrees(w, pins, w.registry[ds], scan, column, keys)
    ensures TempTableProbe(w, w.registry[ds], scan, keys, column).Ok?
  {
    var spec := w.registry[ds];
    if scan.injectedSql.None? {
      var from := FromItem(w, spec, KeyTemps(keys), FromOf(scan));
      var q := TempJoinQuery(scan, KeyName(keys), column).value;
      var answer := FetchTuples(w, pins, ds, scan, None).value;
      assert StaticFilter(scan) + [] == StaticFilter(scan);
      if scan.rawSql.None? {
        assert answer.schema == ProjectSchema(from.value.schema, Some(scan.columns));
      }
      AnsweredColumns(from.value.schema, OutputColumns(scan), [column]);
      assert [column][0] == column;
      SemiJoinResolved(from.value.schema, scan, keys, column);
      assert Resolves(KeyTemps(keys), from.value.schema, q);
    }
  }

  lemma {:induction false} SemiJoinResolved(schema: seq<Field>, scan: ScanSpec, keys: Table, column: string)
    requires TempJoinQuery(scan, KeyName(keys), column).Ok? && keys.schema != []
    requires IndexOf(schema, column).Some? && (scan.rawSql.None? ==> HasColumns(schema, scan.columns))
    ensures Resolves(KeyTemps(keys), schema, TempJoinQuery(scan, KeyName(keys), column).value)
  {
    var q := TempJoinQuery(scan, KeyName(keys), column).value;
    forall k | 0 <= k < |q.where_|
      ensures HasColumns(schema, PredColumns(q.where_[k]))
      ensures q.where_[k].InTemp? ==> q.where_[k] == InTemp(column, KeyName(keys), DYN_KEYS_TEMP_TABLE)
    {
    }
    assert keys.schema[0].name == KeyName(keys);
  }

  /**
   * Where the plain scan is answered and has the injected columns, every delivery succeeds; the partitioned one needs
   * the catalog's page count too.
   */
  lemma {:induction false} DeliverySucceeds(w: World, pins: Pins, ds: string, scan: ScanSpec, column: string,
                                            keys: Table, ndv: Option<nat>, extras: seq<KeySet>)
    requires Deliverable(w, pins, ds, scan, column, keys, ndv, extras) && keys.schema != []
    requires FetchTuples(w, pins, ds, scan, None).Ok?
    requires Reducing(FetchTuples(w, pins, ds, scan, None).value, column, extras)
    requires OneQuery(w.registry[ds], Chosen(w, w.registry[ds], scan, column, keys, ndv))
               || w.pages(w.registry[ds], scan.schema, scan.table.value).Some?
    ensures RunInjectedScan(w, pins, ds, scan, column, keys, ndv, extras).Ok?
  {
    if OneQuery(w.registry[ds], Chosen(w, w.registry[ds], scan, column, keys, ndv)) {
      OneQuerySucceeds(w, pins, ds, scan, column, keys, ndv, extras);
    } else {
      PartitionedSucceeds(w, pins, ds, scan);
      RunsPartitioned(w, pins, ds, scan, column, keys, ndv, extras);
    }
  }

  lemma {:induction false} OneQuerySucceeds(w: World, pins: Pins, ds: string, scan: ScanSpec, column: string,
                                            keys: Table, ndv: Option<nat>, extras: seq<KeySet>)
    requires Deliverable(w, pins, ds, scan, column, keys, ndv, extras) && keys.schema != []
    requires FetchTuples(w, pins, ds, scan, None).Ok?
    requires Reducing(FetchTuples(w, pins, ds, scan, None).value, column, extras)
    requires OneQuery(w.registry[ds], Chosen(w, w.registry[ds], scan, column, keys, ndv))
    ensures RunInjectedScan(w, pins, ds, scan, column, keys, ndv, extras).Ok?
  {
    var delivery := Chosen(w, w.registry[ds], scan, column, keys, ndv);
    if delivery == SemiJoin {
      ChosenIff(w, w.registry[ds], scan, column, keys, ndv);
      SemiJoinSucceeds(w, pins, ds, scan, column, keys);
      RunsSemiJoin(w, pins, ds, scan, column, keys, ndv, extras);
    } else {
      ScanSucceeds(w, pins, ds, scan, column, keys, extras, delivery);
      RunsScan(w, pins, ds, scan, column, keys, ndv, extras);
    }
  }

  lemma {:induction false} PartitionedSucceeds(w: World, pins: Pins, ds: string, scan: ScanSpec)
    requires FetchTuples(w, pins, ds, scan, None).Ok? && scan.rawSql.None? && scan.table.Some? && scan.columns != []
    requires w.registry[ds].kind == Postgres
    requires w.pages(w.registry[ds], scan.schema, scan.table.value).Some?
    ensures ParallelScan(w, ds, scan).Ok?
  {
    var pages := w.pages(w.registry[ds], scan.schema, scan.table.value).value;
    ReadIsAnswerable(w, pins, ds, scan);
    RangesRefusePlainly(w, w.registry[ds], scan, PlannedRanges(pages));
    ScansPlannedRanges(w, ds, scan, pages);
  }

  lemma {:induction false} ReadIsAnswerable(w: World, pins: Pins, ds: string, scan: ScanSpec)
    requires FetchTuples(w, pins, ds, scan, None).Ok? && scan.rawSql.None? && scan.table.Some? && scan.columns != []
    requires w.registry[ds].kind == Postgres
    ensures Answerable(w, w.registry[ds], scan)
  {
    assert VisibleTemps(pins, w.registry[ds]) == map[];
  }

  lemma {:induction false} AnswerableIsRead(w: World, pins: Pins, ds: string, scan: ScanSpec)
    requires ds in w.registry && w.registry[ds].kind == Postgres && scan.rawSql.None?
    requires scan.table.Some? && scan.columns != [] && Answerable(w, w.registry[ds], scan)
    ensures FetchTuples(w, pins, ds, scan, None).Ok?
  {
    PlainAnswer(w, pins, ds, scan, w.stored(w.registry[ds], scan.schema, scan.table.value).value);
  }

  /** A source read that succeeds, in parallel or not, is of a scan that is answered. */
  lemma {:induction false} SourceReadsTuples(w: World, pins: Pins, ds: string, scan: ScanSpec)
    requires FetchSource(w, pins, ds, scan).Ok? && (scan.rawSql.None? || scan.table.None?)
    requires scan.rawSql.None? ==> scan.columns != []
    ensures FetchTuples(w, pins, ds, scan, None).Ok?
  {
    if scan.parallel {
      assert ParallelScan(w, ds, scan).Ok?;
      var pages := w.pages(w.registry[ds], scan.schema, scan.table.value).value;
      ScansPlannedRanges(w, ds, scan, pages);
      RangesRefusePlainly(w, w.registry[ds], scan, PlannedRanges(pages));
      AnswerableIsRead(w, pins, ds, scan);
    }
  }
}
