/** DISTINCT, LIMIT and shipped tables under key injection: which deliveries lose them, and exactly when it shows. */
module ScanModifiers {
  import opened Outcomes
  import opened Ir
  import opened Relations
  import opened Partition
  import opened Sources
  import opened Typing
  import opened Injection
  import opened InjectionProofs

  function Plain(scan: ScanSpec): ScanSpec {
    scan.(distinct := false, limit := None)
  }

  /** The rows of a scan under its DISTINCT and its LIMIT. */
  function Modified(scan: ScanSpec, rows: seq<Row>): seq<Row> {
    Cut(Unique(scan, rows), scan.limit)
  }

  function Unique(scan: ScanSpec, rows: seq<Row>): seq<Row> {
    if scan.distinct then Distinct(rows) else rows
  }

  function ModifiedTuples(scan: ScanSpec, heap: seq<Tuple>): (out: seq<Tuple>)
    ensures RowsIn(out) == Modified(scan, RowsIn(heap))
  {
    Cut(if scan.distinct then FirstOfEach(heap) else heap, scan.limit)
  }

  /** The temp-table and the partitioned deliveries render neither DISTINCT nor LIMIT. */
  predicate LosesModifiers(w: World, ds: string, scan: ScanSpec, column: string, keys: Table, ndv: Option<nat>) {
    ds in w.registry && !IsScan(w.registry[ds].kind, Chosen(w, w.registry[ds], scan, column, keys, ndv))
  }

  // --- what each delivery reads ---------------------------------------------------------------------------

  lemma {:induction false} SameProbe(w: World, spec: DsSpec, scan: ScanSpec, keys: Table, column: string)
    ensures TempTableProbe(w, spec, scan, keys, column) == TempTableProbe(w, spec, Plain(scan), keys, column)
  {
  }

  lemma {:induction false} SameGathering(w: World, spec: DsSpec, scan: ScanSpec, ranges: seq<(nat, nat)>)
    requires scan.table.Some? && ranges != []
    ensures GatherPartitions(w, spec, scan, ranges) == GatherPartitions(w, spec, Plain(scan), ranges)
  {
    assert PartitionQuery(scan, ranges[0]) == PartitionQuery(Plain(scan), ranges[0]);
    if |ranges| > 1 {
      SameGathering(w, spec, scan, ranges[1..]);
    }
  }

  lemma {:induction false} SameParallel(w: World, ds: string, scan: ScanSpec)
    ensures ParallelScan(w, ds, scan) == ParallelScan(w, ds, Plain(scan))
  {
    if ds in w.registry && scan.table.Some? && w.registry[ds].kind == Postgres {
      var found := w.pages(w.registry[ds], scan.schema, scan.table.value);
      if found.Some? {
        SameGathering(w, w.registry[ds], scan, PlannedRanges(found.value));
      }
    }
  }

  lemma {:induction false} SameChoice(w: World, spec: DsSpec, scan: ScanSpec, column: string, keys: Table,
                                      ndv: Option<nat>)
    ensures Chosen(w, spec, scan, column, keys, ndv) == Chosen(w, spec, Plain(scan), column, keys, ndv)
  {
  }

  lemma {:induction false} RunsSemiJoin(w: World, pins: Pins, ds: string, scan: ScanSpec, column: string, keys: Table,
                                        ndv: Option<nat>, extras: seq<KeySet>)
    requires ds in w.registry && Chosen(w, w.registry[ds], scan, column, keys, ndv) == SemiJoin
    ensures RunInjectedScan(w, pins, ds, scan, column, keys, ndv, extras) ==
              TempTableProbe(w, w.registry[ds], scan, keys, column)
  {
  }

  lemma {:induction false} RunsPartitioned(w: World, pins: Pins, ds: string, scan: ScanSpec, column: string,
                                           keys: Table, ndv: Option<nat>, extras: seq<KeySet>)
    requires ds in w.registry && w.registry[ds].kind == Postgres
    requires Chosen(w, w.registry[ds], scan, column, keys, ndv) == WholeProbe
    ensures RunInjectedScan(w, pins, ds, scan, column, keys, ndv, extras) == ParallelScan(w, ds, scan)
  {
  }

  lemma {:induction false} RunsScan(w: World, pins: Pins, ds: string, scan: ScanSpec, column: string, keys: Table,
                                    ndv: Option<nat>, extras: seq<KeySet>)
    requires ds in w.registry && IsScan(w.registry[ds].kind, Chosen(w, w.registry[ds], scan, column, keys, ndv))
    ensures RunInjectedScan(w, pins, ds, scan, column, keys, ndv, extras) ==
              FetchScan(w, pins, ds, scan, FilterOf(Chosen(w, w.registry[ds], scan, column, keys, ndv),
                                                    InList(column, KeyValues(keys)), ExtraFilters(extras)))
  {
  }

  /** The losing deliveries read what they would read without the modifiers. */
  lemma {:induction false} DroppedModifiers(w: World, pins: Pins, ds: string, scan: ScanSpec, column: string,
                                            keys: Table, ndv: Option<nat>, extras: seq<KeySet>)
    requires LosesModifiers(w, ds, scan, column, keys, ndv)
    ensures RunInjectedScan(w, pins, ds, scan, column, keys, ndv, extras) ==
              RunInjectedScan(w, pins, ds, Plain(scan), column, keys, ndv, extras)
  {
    SameChoice(w, w.registry[ds], scan, column, keys, ndv);
    if Chosen(w, w.registry[ds], scan, column, keys, ndv) == SemiJoin {
      RunsSemiJoin(w, pins, ds, scan, column, keys, ndv, extras);
      RunsSemiJoin(w, pins, ds, Plain(scan), column, keys, ndv, extras);
      SameProbe(w, w.registry[ds], scan, keys, column);
    } else {
      RunsPartitioned(w, pins, ds, scan, column, keys, ndv, extras);
      RunsPartitioned(w, pins, ds, Plain(scan), column, keys, ndv, extras);
      SameParallel(w, ds, scan);
    }
  }

  lemma {:induction false} ModifiedFetch(w: World, pins: Pins, ds: string, scan: ScanSpec, extra: Option<seq<Pred>>)
    requires scan.rawSql.None?
    ensures var plain := FetchTuples(w, pins, ds, Plain(scan), extra);
            FetchTuples(w, pins, ds, scan, extra) ==
              if plain.Ok? then Ok(Stored(plain.value.schema, ModifiedTuples(scan, plain.value.heap))) else plain
  {
    if ScanQuery(scan, extra).Ok? && ds in w.registry {
      ModifiedAnswer(w, w.registry[ds], VisibleTemps(pins, w.registry[ds]), scan, ScanQuery(Plain(scan), extra).value);
    }
  }

  lemma {:induction false} ModifiedAnswer(w: World, spec: DsSpec, temps: Temps, scan: ScanSpec, q: Query)
    requires q.Select? && !q.distinct && q.limit.None?
    ensures var plain := Answer(w, spec, temps, q);
            Answer(w, spec, temps, q.(distinct := scan.distinct, limit := scan.limit)) ==
              if plain.Some? then Some(Stored(plain.value.schema, ModifiedTuples(scan, plain.value.heap))) else None
  {
  }

  lemma {:induction false} ModifiedWithin(scan: ScanSpec, heap: seq<Tuple>)
    ensures forall t :: t in ModifiedTuples(scan, heap) ==> t in heap
  {
    FirstWithin(heap);
  }

  lemma {:induction false} FirstWithin(heap: seq<Tuple>)
    ensures forall t :: t in FirstOfEach(heap) ==> t in heap
  {
    if heap != [] {
      FirstWithin(heap[..|heap| - 1]);
    }
  }

  /** A part of the plain answer, under the modifiers, is read as the part's rows under them. */
  lemma {:induction false} ModifiedRead(kind: DsKind, scan: ScanSpec, s: Stored, ks: seq<KeySet>)
    requires kind == Postgres ==> KeepsValues(s)
    ensures var part := HitTuples(s, ks);
            var read := Read(kind, Stored(s.schema, ModifiedTuples(scan, part.heap)));
            && read.rows == Modified(scan, Hitting(Read(kind, s), ks))
            && SameShape(read.schema, Read(kind, s).schema)
  {
    var part := HitTuples(s, ks);
    FilterWithin(TupleHitter(s.schema, ks), s.heap);
    ModifiedWithin(scan, part.heap);
    ReadPart(kind, s, ModifiedTuples(scan, part.heap));
    ReadPart(kind, s, part.heap);
    HitRows(kind, s, ks);
  }

  /** The plain scan under its modifiers. */
  lemma {:induction false} ModifiedBase(w: World, pins: Pins, ds: string, scan: ScanSpec)
    requires scan.rawSql.None? && FetchTuples(w, pins, ds, Plain(scan), None).Ok?
    requires Kept(w, pins, ds, Plain(scan))
    ensures FetchScan(w, pins, ds, scan, None).Ok? && FetchScan(w, pins, ds, Plain(scan), None).Ok?
    ensures var base := FetchScan(w, pins, ds, Plain(scan), None).value;
            && FetchScan(w, pins, ds, scan, None).value.rows == Modified(scan, base.rows)
            && SameShape(FetchScan(w, pins, ds, scan, None).value.schema, base.schema)
  {
    var s := FetchTuples(w, pins, ds, Plain(scan), None).value;
    ModifiedFetch(w, pins, ds, scan, None);
    AllHit(s);
    ModifiedRead(w.registry[ds].kind, scan, s, []);
    HitRows(w.registry[ds].kind, s, []);
  }

  /** What a delivery fetches of a modified probe, in terms of the plain scan without the modifiers. */
  lemma {:induction false} ModifiedDelivery(w: World, pins: Pins, ds: string, scan: ScanSpec, column: string,
                                            keys: Table, ndv: Option<nat>, extras: seq<KeySet>)
    requires scan.rawSql.None? && Deliverable(w, pins, ds, Plain(scan), column, keys, ndv, extras)
    requires Kept(w, pins, ds, Plain(scan))
    ensures var fetched := RunInjectedScan(w, pins, ds, scan, column, keys, ndv, extras);
            fetched.Ok? ==>
              && ds in w.registry && FetchTuples(w, pins, ds, Plain(scan), None).Ok?
              && FetchScan(w, pins, ds, Plain(scan), None).Ok?
              && var base := FetchScan(w, pins, ds, Plain(scan), None).value;
                 var hits := Hitting(base, UsedSets(Chosen(w, w.registry[ds], scan, column, keys, ndv), column, keys,
                   extras));
                 && fetched.value.rows == (if LosesModifiers(w, ds, scan, column, keys, ndv) then hits
                      else Modified(scan, hits))
                 && SameShape(fetched.value.schema, base.schema)
  {
    if LosesModifiers(w, ds, scan, column, keys, ndv) {
      LostModifiers(w, pins, ds, scan, column, keys, ndv, extras);
    } else if ds in w.registry {
      ScanOfModified(w, pins, ds, scan, column, keys, ndv, extras);
    }
  }

  lemma {:induction false} LostModifiers(w: World, pins: Pins, ds: string, scan: ScanSpec, column: string, keys: Table,
                                         ndv: Option<nat>, extras: seq<KeySet>)
    requires scan.rawSql.None? && Deliverable(w, pins, ds, Plain(scan), column, keys, ndv, extras)
    requires Kept(w, pins, ds, Plain(scan))
    requires LosesModifiers(w, ds, scan, column, keys, ndv)
    ensures var fetched := RunInjectedScan(w, pins, ds, scan, column, keys, ndv, extras);
            fetched.Ok? ==>
              && FetchTuples(w, pins, ds, Plain(scan), None).Ok?
              && FetchScan(w, pins, ds, Plain(scan), None).Ok?
              && var base := FetchScan(w, pins, ds, Plain(scan), None).value;
                 var used := UsedSets(Chosen(w, w.registry[ds], scan, column, keys, ndv), column, keys, extras);
                 && fetched.value.rows == Hitting(base, used)
                 && SameShape(fetched.value.schema, base.schema)
  {
    DroppedModifiers(w, pins, ds, scan, column, keys, ndv, extras);
    SameChoice(w, w.registry[ds], scan, column, keys, ndv);
    DeliveryFetches(w, pins, ds, Plain(scan), column, keys, ndv, extras);
  }

  lemma {:induction false} ScanOfModified(w: World, pins: Pins, ds: string, scan: ScanSpec, column: string, keys: Table,
                                          ndv: Option<nat>, extras: seq<KeySet>)
    requires scan.rawSql.None? && Deliverable(w, pins, ds, Plain(scan), column, keys, ndv, extras)
    requires Kept(w, pins, ds, Plain(scan))
    requires ds in w.registry && IsScan(w.registry[ds].kind, Chosen(w, w.registry[ds], scan, column, keys, ndv))
    ensures var fetched := RunInjectedScan(w, pins, ds, scan, column, keys, ndv, extras);
            fetched.Ok? ==>
              && FetchTuples(w, pins, ds, Plain(scan), None).Ok?
              && FetchScan(w, pins, ds, Plain(scan), None).Ok?
              && var base := FetchScan(w, pins, ds, Plain(scan), None).value;
                 var used := UsedSets(Chosen(w, w.registry[ds], scan, column, keys, ndv), column, keys, extras);
                 && fetched.value.rows == Modified(scan, Hitting(base, used))
                 && SameShape(fetched.value.schema, base.schema)
  {
    var delivery := Chosen(w, w.registry[ds], scan, column, keys, ndv);
    var extra := FilterOf(delivery, InList(column, KeyValues(keys)), ExtraFilters(extras));
    RunsScan(w, pins, ds, scan, column, keys, ndv, extras);
    ScanDelivers(w, pins, ds, Plain(scan), column, keys, extras, delivery);
    ModifiedHits(w, pins, ds, scan, extra, UsedSets(delivery, column, keys, extras));
  }

  /** A scan under its modifiers and a dynamic filter, where that filter reads what some key sets can join. */
  lemma {:induction false} ModifiedHits(w: World, pins: Pins, ds: string, scan: ScanSpec, extra: Option<seq<Pred>>,
                                        used: seq<KeySet>)
    requires scan.rawSql.None? && Kept(w, pins, ds, Plain(scan)) && AnswersHits(w, pins, ds, Plain(scan), extra, used)
    ensures FetchScan(w, pins, ds, scan, extra).Ok? ==>
              && FetchTuples(w, pins, ds, Plain(scan), None).Ok?
              && FetchScan(w, pins, ds, Plain(scan), None).Ok?
              && var fetched, base := FetchScan(w, pins, ds, scan, extra).value,
                   FetchScan(w, pins, ds, Plain(scan), None).value;
                 fetched.rows == Modified(scan, Hitting(base, used)) && SameShape(fetched.schema, base.schema)
  {
    if FetchScan(w, pins, ds, scan, extra).Ok? {
      ModifiedFetch(w, pins, ds, scan, extra);
      ModifiedRead(w.registry[ds].kind, scan, FetchTuples(w, pins, ds, Plain(scan), None).value, used);
    }
  }

  // --- cutting and deduplicating what is kept -----------------------------------------------------------------

  ghost predicate NoRepeats(rows: seq<Row>) {
    forall x :: multiset(rows)[x] <= 1
  }

  lemma {:induction false} DistinctCounts(rows: seq<Row>, x: Row)
    ensures multiset(Distinct(rows))[x] == if x in rows then 1 else 0
  {
    if rows != [] {
      var init := rows[..|rows| - 1];
      DistinctCounts(init, x);
      assert rows == init + [rows[|rows| - 1]];
    }
  }

  lemma {:induction false} InCounts(rows: seq<Row>, x: Row)
    ensures x in rows <==> multiset(rows)[x] > 0
  {
    assert x in rows <==> x in multiset(rows);
  }

  lemma {:induction false} DistinctSnoc(rows: seq<Row>, x: Row)
    ensures Distinct(rows + [x]) == if x in rows then Distinct(rows) else Distinct(rows) + [x]
  {
    var all := rows + [x];
    assert all[..|all| - 1] == rows;
  }

  /** Filtering and deduplicating commute. */
  lemma {:induction false} DistinctFilter(keep: Row -> bool, rows: seq<Row>)
    ensures Distinct(Filter(keep, rows)) == Filter(keep, Distinct(rows))
  {
    if rows != [] {
      var init, last := rows[..|rows| - 1], rows[|rows| - 1];
      DistinctFilter(keep, init);
      assert rows == init + [last];
      DistinctFilterSnoc(keep, init, last);
    }
  }

  lemma {:induction false} DistinctFilterSnoc(keep: Row -> bool, init: seq<Row>, last: Row)
    requires Distinct(Filter(keep, init)) == Filter(keep, Distinct(init))
    ensures Distinct(Filter(keep, init + [last])) == Filter(keep, Distinct(init + [last]))
  {
    FilterEnd(keep, init, last);
    DistinctSnoc(init, last);
    FilterWithin(keep, init);
    if keep(last) {
      DistinctSnoc(Filter(keep, init), last);
    }
    FilterEnd(keep, Distinct(init), last);
  }

  lemma {:induction false} FilterEnd(keep: Row -> bool, rows: seq<Row>, x: Row)
    ensures Filter(keep, rows + [x]) == if keep(x) then Filter(keep, rows) + [x] else Filter(keep, rows)
  {
    FilterAppend(keep, rows, [x]);
    assert [x][1..] == [];
    assert Filter(keep, [x]) == if keep(x) then [x] else [];
    assert Filter(keep, rows) + [] == Filter(keep, rows);
  }

  /** What a limit keeps, and what it cuts off. */
  function Beyond(rows: seq<Row>, limit: Option<nat>): seq<Row> {
    rows[|Cut(rows, limit)|..]
  }

  lemma {:induction false} CutSplits(keep: Row -> bool, rows: seq<Row>, limit: Option<nat>)
    ensures Cut(rows, limit) + Beyond(rows, limit) == rows
    ensures Filter(keep, rows) == Filter(keep, Cut(rows, limit)) + Filter(keep, Beyond(rows, limit))
  {
    FilterAppend(keep, Cut(rows, limit), Beyond(rows, limit));
    assert Cut(rows, limit) + Beyond(rows, limit) == rows;
  }

  lemma {:induction false} FilterShorter(keep: Row -> bool, rows: seq<Row>)
    ensures |Filter(keep, rows)| <= |rows|
    ensures |Filter(keep, rows)| == |rows| ==> Filter(keep, rows) == rows
  {
    if rows != [] {
      FilterShorter(keep, rows[1..]);
    }
  }

  /** Between the rows of interest in `kept` and all of `kept`. */
  ghost predicate Between(interest: Row -> bool, kept: seq<Row>, fetched: seq<Row>) {
    multiset(Filter(interest, kept)) <= multiset(fetched) <= multiset(kept)
  }

  /**
   * Cutting after filtering against cutting alone: in between iff the cut rows all pass, or no row beyond them does.
   */
  lemma {:induction false} CutAfterFilter(keep: Row -> bool, interest: Row -> bool, rows: seq<Row>, limit: Option<nat>)
    requires forall x :: interest(x) ==> keep(x)
    ensures Between(interest, Cut(rows, limit), Cut(Filter(keep, rows), limit)) <==>
              Filter(keep, Cut(rows, limit)) == Cut(rows, limit) || Filter(keep, Beyond(rows, limit)) == []
  {
    var kept, beyond := Cut(rows, limit), Beyond(rows, limit);
    CutSplits(keep, rows, limit);
    FilterShorter(keep, kept);
    if Filter(keep, beyond) == [] {
      assert Filter(keep, kept) + [] == Filter(keep, kept);
      CutShort(Filter(keep, rows), limit, |kept|);
      InterestWithin(keep, interest, kept);
    } else if Filter(keep, kept) == kept {
      CutAt(kept, Filter(keep, beyond), limit);
      FilterIsPart(interest, kept);
    } else {
      CutAt(Filter(keep, kept), Filter(keep, beyond), limit);
      PastTheCut(keep, kept, beyond, Cut(Filter(keep, rows), limit));
    }
  }

  lemma {:induction false} CutShort(rows: seq<Row>, limit: Option<nat>, n: nat)
    requires |rows| <= n && (limit.Some? ==> n <= limit.value)
    ensures Cut(rows, limit) == rows
  {
  }

  /** A cut takes the first part whole, as far as it is within the limit, and then from the second. */
  lemma {:induction false} CutAt(first: seq<Row>, second: seq<Row>, limit: Option<nat>)
    requires limit.Some? && |first| <= limit.value && second != []
    ensures Cut(first + second, limit) <= first + second
    ensures |first| == limit.value ==> Cut(first + second, limit) == first
    ensures |first| < limit.value ==> |first| < |Cut(first + second, limit)|
  {
  }

  lemma {:induction false} InterestWithin(keep: Row -> bool, interest: Row -> bool, rows: seq<Row>)
    requires forall x :: interest(x) ==> keep(x)
    ensures Between(interest, rows, Filter(keep, rows))
  {
    FilterIsPart(keep, rows);
    forall x ensures multiset(Filter(interest, rows))[x] <= multiset(Filter(keep, rows))[x] {
      FilterCount(interest, rows, x);
      FilterCount(keep, rows, x);
    }
  }

  /** A row from beyond the cut that takes a filtered row's place is one too many. */
  lemma {:induction false} PastTheCut(keep: Row -> bool, kept: seq<Row>, beyond: seq<Row>, fetched: seq<Row>)
    requires Filter(keep, beyond) != [] && |Filter(keep, kept)| < |fetched|
    requires fetched <= Filter(keep, kept) + Filter(keep, beyond)
    ensures !(multiset(fetched) <= multiset(kept))
  {
    var n := |Filter(keep, kept)|;
    var x := fetched[n];
    assert x == Filter(keep, beyond)[0];
    FilterWithin(keep, beyond);
    assert x in Filter(keep, beyond);
    assert fetched == fetched[..n] + [x] + fetched[n + 1..] && fetched[..n] == Filter(keep, kept);
    FilterCount(keep, kept, x);
    assert multiset(fetched)[x] > multiset(kept)[x];
  }

  /** Fetching every passing row against a cut: in between iff none of them repeats in place of one, or is cut off. */
  lemma {:induction false} FilterAgainstCut(keep: Row -> bool, interest: Row -> bool, scan: ScanSpec, rows: seq<Row>)
    requires forall x :: interest(x) ==> keep(x)
    ensures Between(interest, Modified(scan, rows), Filter(keep, rows)) <==>
              && (scan.distinct ==> NoRepeats(Filter(keep, rows)))
              && Filter(keep, Beyond(Unique(scan, rows), scan.limit)) == []
  {
    forall x ensures multiset(Filter(interest, Modified(scan, rows)))[x] <= multiset(Filter(keep, rows))[x] {
      CountedAgainstCut(keep, interest, scan, rows, x);
    }
    AllWithinCut(keep, interest, scan, rows);
  }

  lemma {:induction false} AllWithinCut(keep: Row -> bool, interest: Row -> bool, scan: ScanSpec, rows: seq<Row>)
    requires forall x :: interest(x) ==> keep(x)
    ensures multiset(Filter(keep, rows)) <= multiset(Modified(scan, rows)) <==>
              && (scan.distinct ==> NoRepeats(Filter(keep, rows)))
              && Filter(keep, Beyond(Unique(scan, rows), scan.limit)) == []
  {
    var passing, kept, beyond := Filter(keep, rows), Modified(scan, rows), Beyond(Unique(scan, rows), scan.limit);
    NothingKept(keep, beyond);
    if multiset(passing) <= multiset(kept) {
      forall x
        ensures scan.distinct ==> multiset(passing)[x] <= 1
        ensures keep(x) ==> multiset(beyond)[x] == 0
      {
        CountedAgainstCut(keep, interest, scan, rows, x);
      }
    } else {
      var x :| multiset(passing)[x] > multiset(kept)[x];
      CountedAgainstCut(keep, interest, scan, rows, x);
    }
  }

  lemma {:induction false} NothingKept(keep: Row -> bool, rows: seq<Row>)
    ensures Filter(keep, rows) == [] <==> forall x :: keep(x) ==> multiset(rows)[x] == 0
  {
    if Filter(keep, rows) != [] {
      var x := Filter(keep, rows)[0];
      FilterWithin(keep, rows);
      assert x in Filter(keep, rows);
      InCounts(rows, x);
    } else {
      forall x | keep(x) ensures multiset(rows)[x] == 0 {
        FilterCount(keep, rows, x);
      }
    }
  }

  lemma {:induction false} CountedAgainstCut(keep: Row -> bool, interest: Row -> bool, scan: ScanSpec, rows: seq<Row>,
                                             x: Row)
    requires interest(x) ==> keep(x)
    ensures var kept, beyond := Modified(scan, rows), Beyond(Unique(scan, rows), scan.limit);
            && multiset(Filter(interest, kept))[x] <= multiset(Filter(keep, rows))[x]
            && (multiset(Filter(keep, rows))[x] <= multiset(kept)[x] <==>
                  (scan.distinct ==> multiset(Filter(keep, rows))[x] <= 1) && (keep(x) ==> multiset(beyond)[x] == 0))
  {
    var kept, beyond := Modified(scan, rows), Beyond(Unique(scan, rows), scan.limit);
    FilterCount(keep, rows, x);
    FilterCount(interest, kept, x);
    DistinctCounts(rows, x);
    InCounts(rows, x);
    CutSplits(keep, Unique(scan, rows), scan.limit);
    assert multiset(Unique(scan, rows))[x] == multiset(kept)[x] + multiset(beyond)[x];
  }

  // --- exactly when the modifiers survive ------------------------------------------------------------------------

  /**
   * What a caller can check against the plain scan without the modifiers: of its deduplicated rows, either the limit
   * keeps only rows that the used key sets can join, or it cuts none of them off; a delivery that loses the modifiers
   * needs the latter, and no such row twice under DISTINCT.
   */
  ghost predicate ModifiersSurvive(scan: ScanSpec, base: Table, used: seq<KeySet>, loses: bool) {
    var kept, beyond := Modified(scan, base.rows), Beyond(Unique(scan, base.rows), scan.limit);
    var keep := Hitter(base.schema, used);
    if loses then (scan.distinct ==> NoRepeats(Filter(keep, base.rows))) && Filter(keep, beyond) == []
    else Filter(keep, kept) == kept || Filter(keep, beyond) == []
  }

  /** A probe with DISTINCT, LIMIT or both is sandwiched by its own plain scan if and only if its modifiers survive. */
  lemma {:induction false} ModifiersSurviveIff(w: World, pins: Pins, ds: string, scan: ScanSpec, column: string,
                                               keys: Table, ndv: Option<nat>, extras: seq<KeySet>)
    requires scan.rawSql.None? && Deliverable(w, pins, ds, Plain(scan), column, keys, ndv, extras)
    requires Kept(w, pins, ds, Plain(scan))
    ensures RunInjectedScan(w, pins, ds, scan, column, keys, ndv, extras).Ok? ==>
              && ds in w.registry && FetchScan(w, pins, ds, scan, None).Ok?
                   && FetchScan(w, pins, ds, Plain(scan), None).Ok?
              && (Sandwiched(FetchScan(w, pins, ds, scan, None).value,
                             RunInjectedScan(w, pins, ds, scan, column, keys, ndv, extras).value,
                             [KeySet(column, keys)] + extras) <==>
                    ModifiersSurvive(scan, FetchScan(w, pins, ds, Plain(scan), None).value,
                                     UsedSets(Chosen(w, w.registry[ds], scan, column, keys, ndv), column, keys, extras),
                                     LosesModifiers(w, ds, scan, column, keys, ndv)))
  {
    ModifiedDelivery(w, pins, ds, scan, column, keys, ndv, extras);
    if RunInjectedScan(w, pins, ds, scan, column, keys, ndv, extras).Ok? {
      ModifiedBase(w, pins, ds, scan);
      var used := UsedSets(Chosen(w, w.registry[ds], scan, column, keys, ndv), column, keys, extras);
      UsedAreGiven(Chosen(w, w.registry[ds], scan, column, keys, ndv), column, keys, extras);
      SurvivesForTables(scan, FetchScan(w, pins, ds, Plain(scan), None).value, FetchScan(w, pins, ds, scan, None).value,
                        RunInjectedScan(w, pins, ds, scan, column, keys, ndv, extras).value, used,
                        [KeySet(column, keys)] + extras, LosesModifiers(w, ds, scan, column, keys, ndv));
    }
  }

  lemma {:induction false} SurvivesForTables(scan: ScanSpec, base: Table, limited: Table, fetched: Table,
                                             used: seq<KeySet>, ks: seq<KeySet>, loses: bool)
    requires forall k :: k in used ==> k in ks
    requires limited.rows == Modified(scan, base.rows) && SameShape(limited.schema, base.schema)
    requires SameShape(fetched.schema, base.schema)
    requires fetched.rows == if loses then Hitting(base, used) else Modified(scan, Hitting(base, used))
    ensures Sandwiched(limited, fetched, ks) <==> ModifiersSurvive(scan, base, used, loses)
  {
    var keep, interest := Hitter(base.schema, used), Hitter(base.schema, ks);
    SameHitting(limited, base.schema, ks);
    forall x ensures interest(x) ==> keep(x) {
      HitsFewer(base.schema, x, used, ks);
    }
    if loses {
      FilterAgainstCut(keep, interest, scan, base.rows);
    } else {
      DistinctFilter(keep, base.rows);
      CutAfterFilter(keep, interest, Unique(scan, base.rows), scan.limit);
    }
  }

  lemma {:induction false} SameHitting(t: Table, schema: seq<Field>, ks: seq<KeySet>)
    requires SameShape(t.schema, schema)
    ensures Hitting(t, ks) == Filter(Hitter(schema, ks), t.rows)
  {
    forall k | 0 <= k < |t.rows| ensures Hitter(t.schema, ks)(t.rows[k]) == Hitter(schema, ks)(t.rows[k]) {
      forall i | 0 <= i < |ks| ensures Hits(t.schema, t.rows[k], ks[i]) == Hits(schema, t.rows[k], ks[i]) {
        ShapeIndex(t.schema, schema, ks[i].column);
      }
    }
    FilterCongruence(Hitter(t.schema, ks), Hitter(schema, ks), t.rows);
  }

  /** DISTINCT alone: the delivery deduplicates, or the rows of the plain scan that it reads repeat nothing. */
  lemma {:induction false} DistinctSurvivesIff(w: World, pins: Pins, ds: string, scan: ScanSpec, column: string,
                                               keys: Table, ndv: Option<nat>, extras: seq<KeySet>)
    requires scan.distinct && scan.limit.None? && scan.rawSql.None?
    requires Deliverable(w, pins, ds, Plain(scan), column, keys, ndv, extras) && Kept(w, pins, ds, Plain(scan))
    ensures RunInjectedScan(w, pins, ds, scan, column, keys, ndv, extras).Ok? ==>
              && ds in w.registry && FetchScan(w, pins, ds, scan, None).Ok?
                   && FetchScan(w, pins, ds, Plain(scan), None).Ok?
              && (Sandwiched(FetchScan(w, pins, ds, scan, None).value,
                             RunInjectedScan(w, pins, ds, scan, column, keys, ndv, extras).value,
                             [KeySet(column, keys)] + extras) <==>
                    (LosesModifiers(w, ds, scan, column, keys, ndv) ==>
                       NoRepeats(Hitting(FetchScan(w, pins, ds, Plain(scan), None).value,
                                         UsedSets(Chosen(w, w.registry[ds], scan, column, keys, ndv), column, keys,
                                           extras)))))
  {
    ModifiersSurviveIff(w, pins, ds, scan, column, keys, ndv, extras);
  }

  /**
   * LIMIT alone. A delivery that is a scan applies the limit after the key filter: it is sandwiched iff the limit
   * keeps only rows that pass, or cuts off none that does. The others fetch every row that passes, and need the
   * latter.
   */
  lemma {:induction false} LimitSurvivesIff(w: World, pins: Pins, ds: string, scan: ScanSpec, column: string,
                                            keys: Table, ndv: Option<nat>, extras: seq<KeySet>)
    requires !scan.distinct && scan.rawSql.None?
    requires Deliverable(w, pins, ds, Plain(scan), column, keys, ndv, extras) && Kept(w, pins, ds, Plain(scan))
    ensures RunInjectedScan(w, pins, ds, scan, column, keys, ndv, extras).Ok? ==>
              && ds in w.registry && FetchScan(w, pins, ds, scan, None).Ok?
                   && FetchScan(w, pins, ds, Plain(scan), None).Ok?
              && var base := FetchScan(w, pins, ds, Plain(scan), None).value;
                 var keep := Hitter(base.schema,
                   UsedSets(Chosen(w, w.registry[ds], scan, column, keys, ndv), column, keys, extras));
                 Sandwiched(FetchScan(w, pins, ds, scan, None).value,
                            RunInjectedScan(w, pins, ds, scan, column, keys, ndv, extras).value,
                            [KeySet(column, keys)] + extras) <==>
                   || Filter(keep, Beyond(base.rows, scan.limit)) == []
                   || (!LosesModifiers(w, ds, scan, column, keys, ndv) &&
                       Filter(keep, Cut(base.rows, scan.limit)) == Cut(base.rows, scan.limit))
  {
    ModifiersSurviveIff(w, pins, ds, scan, column, keys, ndv, extras);
  }

  /** A prerendered scan has no modifiers to lose: the spec's are ignored everywhere. */
  lemma {:induction false} RawScansIgnoreModifiers(w: World, pins: Pins, ds: string, scan: ScanSpec, column: string,
                                                   keys: Table, ndv: Option<nat>, extras: seq<KeySet>)
    requires scan.rawSql.Some?
    ensures FetchScan(w, pins, ds, scan, None) == FetchScan(w, pins, ds, Plain(scan), None)
    ensures RunInjectedScan(w, pins, ds, scan, column, keys, ndv, extras) ==
              RunInjectedScan(w, pins, ds, Plain(scan), column, keys, ndv, extras)
  {
    if ds in w.registry {
      var spec := w.registry[ds];
      SameChoice(w, spec, scan, column, keys, ndv);
      if LosesModifiers(w, ds, scan, column, keys, ndv) {
        DroppedModifiers(w, pins, ds, scan, column, keys, ndv, extras);
      } else {
        RunsScan(w, pins, ds, scan, column, keys, ndv, extras);
        RunsScan(w, pins, ds, Plain(scan), column, keys, ndv, extras);
      }
    }
  }

  // --- inputs that show it -----------------------------------------------------------------------------------------

  function PairOf(a: int, b: int): Stored {
    Stored([Field("k", Integer(64, true))], [Tuple(0, [Int(a)], []), Tuple(0, [Int(b)], [])])
  }

  function ProbeOf(distinct: bool, limit: Option<nat>): ScanSpec {
    ScanSpec(None, None, Some("t"), None, ["k"], None, limit, distinct, false, None)
  }

  /** The rows of a pair under a filter that passes each or not. */
  lemma {:induction false} PairRows(w: World, temps: Temps, a: int, b: int, ps: seq<Pred>, passA: bool, passB: bool)
    requires AllTrue(w, temps, PairOf(a, b).schema, ps, PairOf(a, b).heap[0]) == passA
    requires AllTrue(w, temps, PairOf(a, b).schema, ps, PairOf(a, b).heap[1]) == passB
    ensures RowsIn(SelectTuples(w, temps, PairOf(a, b), Some(["k"]), ps)) ==
              (if passA then [[Int(a)]] else []) + (if passB then [[Int(b)]] else [])
  {
    var s := PairOf(a, b);
    var keep := Keeper(w, temps, s.schema, ps);
    WhereIsAll(w, temps, s.schema, ps, s.heap[0]);
    WhereIsAll(w, temps, s.schema, ps, s.heap[1]);
    FilterPair(keep, s.heap[0], s.heap[1]);
    assert Cell(s.schema, [Int(a)], "k") == Int(a) && Cell(s.schema, [Int(b)], "k") == Int(b);
    assert Projector(s.schema, Some(["k"]))(s.heap[0]).row == [Int(a)];
    assert Projector(s.schema, Some(["k"]))(s.heap[1]).row == [Int(b)];
  }

  lemma {:induction false} FilterPair(keep: Tuple -> bool, a: Tuple, b: Tuple)
    ensures Filter(keep, [a, b]) == (if keep(a) then [a] else []) + (if keep(b) then [b] else [])
  {
    assert [a, b][1..] == [b] && [b][1..] == [];
    assert Filter(keep, [b]) == (if keep(b) then [b] else []) + [];
  }

  /** What a DuckDB session answers to a query on a pair. */
  lemma {:induction false} PairAnswer(w: World, spec: DsSpec, temps: Temps, a: int, b: int, scan: ScanSpec,
                                      ps: seq<Pred>)
    requires spec.kind == DuckDb && "t" !in temps && w.stored(spec, None, "t") == Some(PairOf(a, b))
    requires Resolves(temps, PairOf(a, b).schema, Select(Base(None, "t"), Some(["k"]), scan.distinct, scan.limit, ps))
    ensures var r := Queried(w, spec, temps, Select(Base(None, "t"), Some(["k"]), scan.distinct, scan.limit, ps));
            r.Ok? && r.value.rows == Modified(scan, RowsIn(SelectTuples(w, temps, PairOf(a, b), Some(["k"]), ps)))
  {
    assert RowsIn(ModifiedTuples(scan, SelectTuples(w, temps, PairOf(a, b), Some(["k"]), ps))) ==
             Modified(scan, RowsIn(SelectTuples(w, temps, PairOf(a, b), Some(["k"]), ps)));
  }

  lemma {:induction false} PlainPair(w: World, ds: string, a: int, b: int, scan: ScanSpec)
    requires ds in w.registry && w.registry[ds].kind == DuckDb
    requires w.stored(w.registry[ds], None, "t") == Some(PairOf(a, b))
    requires scan == ProbeOf(scan.distinct, scan.limit)
    ensures FetchScan(w, map[], ds, scan, None).Ok?
    ensures FetchScan(w, map[], ds, scan, None).value.rows == Modified(scan, [[Int(a)], [Int(b)]])
  {
    assert StaticFilter(scan) + [] == [];
    assert HasColumns(PairOf(a, b).schema, ["k"]);
    PairRows(w, map[], a, b, [], true, true);
    assert [[Int(a)]] + [[Int(b)]] == [[Int(a)], [Int(b)]];
    PairAnswer(w, w.registry[ds], map[], a, b, scan, []);
  }

  /**
   * A probe of the rows 1 and 2 limited to one row reads row 2 when only key 2 is wanted; the plain scan reads row 1.
   */
  lemma {:induction false} LimitIsNotSandwiched(w: World, ds: string, scan: ScanSpec, keys: Table)
    requires ds in w.registry && w.registry[ds].kind == DuckDb
    requires w.stored(w.registry[ds], None, "t") == Some(PairOf(1, 2))
    requires scan == ProbeOf(false, Some(1)) && keys == Table([Field("k", Integer(64, true))], [[Int(2)]])
    ensures FetchScan(w, map[], ds, scan, None).Ok? && RunInjectedScan(w, map[], ds, scan, "k", keys, None, []).Ok?
    ensures !Sandwiched(FetchScan(w, map[], ds, scan, None).value,
                        RunInjectedScan(w, map[], ds, scan, "k", keys, None, []).value, [KeySet("k", keys)])
  {
    PlainPair(w, ds, 1, 2, scan);
    LimitedList(w, ds, scan, keys);
    var base, fetched := FetchScan(w, map[], ds, scan, None).value,
      RunInjectedScan(w, map[], ds, scan, "k", keys, None, []).value;
    assert base.rows == [[Int(1)]];
    assert [Int(2)] in multiset(fetched.rows) && [Int(2)] !in multiset(base.rows);
  }

  lemma {:induction false} LimitedList(w: World, ds: string, scan: ScanSpec, keys: Table)
    requires ds in w.registry && w.registry[ds].kind == DuckDb
    requires w.stored(w.registry[ds], None, "t") == Some(PairOf(1, 2))
    requires scan == ProbeOf(false, Some(1)) && keys == Table([Field("k", Integer(64, true))], [[Int(2)]])
    ensures RunInjectedScan(w, map[], ds, scan, "k", keys, None, []).Ok?
    ensures RunInjectedScan(w, map[], ds, scan, "k", keys, None, []).value.rows == [[Int(2)]]
  {
    RunsScan(w, map[], ds, scan, "k", keys, None, []);
    var ps := [InList("k", KeyValues(keys))];
    assert ps + ExtraFilters([]) == ps;
    ScanOfPair(w, ds, scan, keys);
  }

  lemma {:induction false} ScanOfPair(w: World, ds: string, scan: ScanSpec, keys: Table)
    requires ds in w.registry && w.registry[ds].kind == DuckDb
    requires w.stored(w.registry[ds], None, "t") == Some(PairOf(1, 2))
    requires scan == ProbeOf(false, Some(1)) && keys == Table([Field("k", Integer(64, true))], [[Int(2)]])
    ensures var r := FetchScan(w, map[], ds, scan, Some([InList("k", KeyValues(keys))]));
            r.Ok? && r.value.rows == [[Int(2)]]
  {
    var ps, schema := [InList("k", KeyValues(keys))], PairOf(1, 2).schema;
    assert StaticFilter(scan) + ps == ps;
    assert HasColumns(schema, ["k"]) && HasColumns(schema, PredColumns(ps[0]));
    OneKeyPasses(w, keys);
    PairRows(w, map[], 1, 2, ps, false, true);
    assert [] + [[Int(2)]] == [[Int(2)]];
    PairAnswer(w, w.registry[ds], map[], 1, 2, scan, ps);
  }

  lemma {:induction false} OneKeyPasses(w: World, keys: Table)
    requires keys == Table([Field("k", Integer(64, true))], [[Int(2)]])
    ensures var ps := [InList("k", KeyValues(keys))];
            && !AllTrue(w, map[], PairOf(1, 2).schema, ps, PairOf(1, 2).heap[0])
            && AllTrue(w, map[], PairOf(1, 2).schema, ps, PairOf(1, 2).heap[1])
  {
    assert KeyValues(keys) == [Int(2)];
    var ps := [InList("k", KeyValues(keys))];
    assert PredTruth(w, map[], PairOf(1, 2).schema, ps[0], PairOf(1, 2).heap[0]) == False;
    assert PredTruth(w, map[], PairOf(1, 2).schema, ps[0], PairOf(1, 2).heap[1]) == True;
  }

  /** Two equal rows, joinable by the ingested keys: the temp-table semi-join returns both, the DISTINCT scan one. */
  lemma {:induction false} DistinctIsLost(w: World, ds: string, scan: ScanSpec, keys: Table)
    requires ds in w.registry && w.registry[ds].kind == DuckDb
    requires w.stored(w.registry[ds], None, "t") == Some(PairOf(1, 1))
    requires scan == ProbeOf(true, None) && keys.schema == [Field("k", Integer(64, true))] && [Int(1)] in keys.rows
    requires IN_CAP <= |keys.rows| <= DUCK_TEMP_CAP && w.estimate(w.registry[ds], None, "t", "k", |keys.rows|) == None
    ensures FetchScan(w, map[], ds, scan, None).Ok? && RunInjectedScan(w, map[], ds, scan, "k", keys, None, []).Ok?
    ensures !Sandwiched(FetchScan(w, map[], ds, scan, None).value,
                        RunInjectedScan(w, map[], ds, scan, "k", keys, None, []).value, [KeySet("k", keys)])
  {
    PlainPair(w, ds, 1, 1, scan);
    assert [[Int(1)], [Int(1)]] == [[Int(1)]] + [[Int(1)]];
    DistinctSnoc([[Int(1)]], [Int(1)]);
    DistinctSnoc([], [Int(1)]);
    assert [] + [[Int(1)]] == [[Int(1)]];
    JoinedTwice(w, ds, scan, keys);
    var base, fetched := FetchScan(w, map[], ds, scan, None).value,
      RunInjectedScan(w, map[], ds, scan, "k", keys, None, []).value;
    assert base.rows == [[Int(1)]];
    assert multiset(fetched.rows)[[Int(1)]] == 2 && multiset(base.rows)[[Int(1)]] == 1;
  }

  lemma {:induction false} JoinedTwice(w: World, ds: string, scan: ScanSpec, keys: Table)
    requires ds in w.registry && w.registry[ds].kind == DuckDb
    requires w.stored(w.registry[ds], None, "t") == Some(PairOf(1, 1))
    requires scan == ProbeOf(true, None) && keys.schema == [Field("k", Integer(64, true))] && [Int(1)] in keys.rows
    requires IN_CAP <= |keys.rows| <= DUCK_TEMP_CAP && w.estimate(w.registry[ds], None, "t", "k", |keys.rows|) == None
    ensures RunInjectedScan(w, map[], ds, scan, "k", keys, None, []).Ok?
    ensures RunInjectedScan(w, map[], ds, scan, "k", keys, None, []).value.rows == [[Int(1)], [Int(1)]]
  {
    RunsSemiJoin(w, map[], ds, scan, "k", keys, None, []);
    SemiJoinOfPair(w, w.registry[ds], scan, keys);
  }

  lemma {:induction false} SemiJoinOfPair(w: World, spec: DsSpec, scan: ScanSpec, keys: Table)
    requires spec.kind == DuckDb && w.stored(spec, None, "t") == Some(PairOf(1, 1))
    requires scan == ProbeOf(true, None) && keys.schema == [Field("k", Integer(64, true))] && [Int(1)] in keys.rows
    ensures TempTableProbe(w, spec, scan, keys, "k").Ok?
    ensures TempTableProbe(w, spec, scan, keys, "k").value.rows == [[Int(1)], [Int(1)]]
  {
    var temps, ps, schema := KeyTemps(keys), [InTemp("k", "k", DYN_KEYS_TEMP_TABLE)], PairOf(1, 1).schema;
    assert StaticFilter(scan) + ps == ps;
    assert HasColumns(schema, ["k"]) && HasColumns(schema, PredColumns(ps[0]));
    KeyIsIngested(w, keys, PairOf(1, 1).heap[0]);
    KeyIsIngested(w, keys, PairOf(1, 1).heap[1]);
    PairRows(w, temps, 1, 1, ps, true, true);
    assert [[Int(1)]] + [[Int(1)]] == [[Int(1)], [Int(1)]];
    PairAnswer(w, spec, temps, 1, 1, ProbeOf(false, None), ps);
  }

  lemma {:induction false} KeyIsIngested(w: World, keys: Table, t: Tuple)
    requires keys.schema == [Field("k", Integer(64, true))] && [Int(1)] in keys.rows && t.row == [Int(1)]
    ensures AllTrue(w, KeyTemps(keys), PairOf(1, 1).schema, [InTemp("k", "k", DYN_KEYS_TEMP_TABLE)], t)
  {
    IngestedKeys(keys);
    var k :| 0 <= k < |keys.rows| && keys.rows[k] == [Int(1)];
    assert KeyValues(keys)[k] == Int(1);
  }

  // --- shipped tables -----------------------------------------------------------------------------------------------

  /**
   * An unlimited DuckDB probe that the temp-table join reads, on a session that shows what one with nothing shipped
   * does.
   */
  predicate JoinsOwnSession(w: World, ds: string, scan: ScanSpec, column: string, keys: Table, ndv: Option<nat>) {
    && ds in w.registry && w.registry[ds].kind == DuckDb
    && !scan.distinct && scan.limit.None? && scan.injectedSql.None? && (scan.rawSql.None? ==> column in scan.columns)
    && Chosen(w, w.registry[ds], scan, column, keys, ndv) == SemiJoin
    && SameFromItem(w, map[], w.registry[ds], scan, keys)
  }

  /** The temp-table join reads what its keys can join of the table as it is stored, whatever is shipped. */
  lemma {:induction false} SemiJoinReadsStored(w: World, pins: Pins, ds: string, scan: ScanSpec, column: string,
                                               keys: Table, ndv: Option<nat>, extras: seq<KeySet>)
    requires JoinsOwnSession(w, ds, scan, column, keys, ndv)
    ensures var read := RunInjectedScan(w, pins, ds, scan, column, keys, ndv, extras);
            var stored := FetchScan(w, map[], ds, scan, None);
            && (read.Ok? ==>
                  && stored.Ok? && read.value.schema == stored.value.schema
                  && read.value.rows == Hitting(stored.value, [KeySet(column, keys)]))
            && (scan.rawSql.None? && stored.Ok? ==> read.Ok?)
  {
    var spec := w.registry[ds];
    RunsSemiJoin(w, pins, ds, scan, column, keys, ndv, extras);
    if scan.rawSql.None? && FetchScan(w, map[], ds, scan, None).Ok? {
      SemiJoinAnswers(w, ds, scan, column, keys);
    }
    if RunInjectedScan(w, pins, ds, scan, column, keys, ndv, extras).Ok? {
      SemiJoinFetch(w, map[], ds, scan, column, keys, TempJoinQuery(scan, KeyName(keys), column).value);
      HitRows(DuckDb, FetchTuples(w, map[], ds, scan, None).value, [KeySet(column, keys)]);
    }
  }

  lemma {:induction false} SemiJoinAnswers(w: World, ds: string, scan: ScanSpec, column: string, keys: Table)
    requires ds in w.registry && w.registry[ds].kind == DuckDb && keys.schema != []
    requires scan.rawSql.None? && scan.injectedSql.None? && column in scan.columns
    requires SameFromItem(w, map[], w.registry[ds], scan, keys) && FetchTuples(w, map[], ds, scan, None).Ok?
    ensures TempTableProbe(w, w.registry[ds], scan, keys, column).Ok?
  {
    var s := FromItem(w, w.registry[ds], map[], FromOf(scan));
    assert VisibleTemps(map[], w.registry[ds]) == map[];
    assert s.Some? && HasColumns(s.value.schema, scan.columns);
    MembershipResolves(s.value.schema, scan, column, keys);
  }

  lemma {:induction false} MembershipResolves(schema: seq<Field>, scan: ScanSpec, column: string, keys: Table)
    requires scan.rawSql.None? && scan.table.Some? && column in scan.columns
    requires HasColumns(schema, scan.columns) && keys.schema != []
    ensures TempJoinQuery(scan, KeyName(keys), column).Ok?
    ensures Resolves(KeyTemps(keys), schema, TempJoinQuery(scan, KeyName(keys), column).value)
  {
    var where_ := TempJoinQuery(scan, KeyName(keys), column).value.where_;
    forall k | 0 <= k < |where_| ensures HasColumns(schema, PredColumns(where_[k])) {
    }
  }

  /** What the temp-table join must find stored, for a probe to lie where the pinned connection's scan says. */
  ghost predicate StoredServes(stored: Table, shipped: Table, column: string, keys: Table, extras: seq<KeySet>) {
    && SameShape(stored.schema, shipped.schema)
    && multiset(Hitting(shipped, [KeySet(column, keys)] + extras)) <= multiset(Hitting(stored, [KeySet(column, keys)]))
    && multiset(Hitting(stored, [KeySet(column, keys)])) <= multiset(shipped.rows)
  }

  /**
   * The temp-table join of a shipped table is sandwiched by its scan on the pinned connection iff the stored table
   * serves.
   */
  lemma {:induction false} ShippedTableIff(w: World, pins: Pins, ds: string, scan: ScanSpec, column: string,
                                           keys: Table, ndv: Option<nat>, extras: seq<KeySet>)
    requires JoinsOwnSession(w, ds, scan, column, keys, ndv)
    ensures var read, shipped :=
              RunInjectedScan(w, pins, ds, scan, column, keys, ndv, extras), FetchScan(w, pins, ds, scan, None);
            var stored := FetchScan(w, map[], ds, scan, None);
            && (scan.rawSql.None? ==> (read.Ok? <==> stored.Ok?))
            && (read.Ok? && shipped.Ok? ==>
                  stored.Ok? &&
                  (Sandwiched(shipped.value, read.value, [KeySet(column, keys)] + extras) <==>
                     StoredServes(stored.value, shipped.value, column, keys, extras)))
  {
    SemiJoinReadsStored(w, pins, ds, scan, column, keys, ndv, extras);
  }

  /**
   * After the ship has dropped the stored namesake, the temp-table join of a shipped table is always refused,
   * although every scan on the pinned connection reads it; every other delivery is such a scan.
   */
  lemma {:induction false} ShippedTableIsRefused(w: World, pins: Pins, ds: string, scan: ScanSpec, column: string,
                                                 keys: Table, ndv: Option<nat>, extras: seq<KeySet>)
    requires ds in w.registry && w.registry[ds].kind == DuckDb
    requires scan.rawSql.None? && scan.injectedSql.None? && scan.schema.None? && scan.table.Some? && scan.columns != []
    requires scan.table.value in VisibleTemps(pins, w.registry[ds]) && scan.table.value != DYN_KEYS_TEMP_TABLE
    requires HasColumns(VisibleTemps(pins, w.registry[ds])[scan.table.value].schema, scan.columns)
    ensures FetchScan(Now(w, pins), pins, ds, scan, None).Ok?
    ensures Chosen(Now(w, pins), w.registry[ds], scan, column, keys, ndv) == SemiJoin ==>
              RunInjectedScan(Now(w, pins), pins, ds, scan, column, keys, ndv, extras) == Err(SourceRefused)
    ensures IsScan(DuckDb, Chosen(Now(w, pins), w.registry[ds], scan, column, keys, ndv)) <==>
              Chosen(Now(w, pins), w.registry[ds], scan, column, keys, ndv) != SemiJoin
  {
    ShippedIsScanned(Now(w, pins), pins, ds, scan);
    if Chosen(Now(w, pins), w.registry[ds], scan, column, keys, ndv) == SemiJoin {
      RunsSemiJoin(Now(w, pins), pins, ds, scan, column, keys, ndv, extras);
      UnstoredIsRefused(Now(w, pins), w.registry[ds], scan, column, keys);
    }
  }

  lemma {:induction false} ShippedIsScanned(w: World, pins: Pins, ds: string, scan: ScanSpec)
    requires ds in w.registry && scan.rawSql.None? && scan.schema.None? && scan.table.Some? && scan.columns != []
    requires scan.table.value in VisibleTemps(pins, w.registry[ds])
    requires HasColumns(VisibleTemps(pins, w.registry[ds])[scan.table.value].schema, scan.columns)
    ensures FetchScan(w, pins, ds, scan, None).Ok?
  {
    assert StaticFilter(scan) + [] == StaticFilter(scan);
  }

  lemma {:induction false} UnstoredIsRefused(w: World, spec: DsSpec, scan: ScanSpec, column: string, keys: Table)
    requires spec.kind == DuckDb && scan.rawSql.None? && scan.injectedSql.None? && scan.schema.None?
    requires scan.table.Some? && scan.columns != [] && scan.table.value != DYN_KEYS_TEMP_TABLE
    requires w.stored(spec, None, scan.table.value).None?
    ensures TempTableProbe(w, spec, scan, keys, column) == Err(SourceRefused)
  {
  }
}
