/**
 * From the page ranges to the caller's frame: under any schedule of the pool, a parallel read is the read of the
 * table.
 */
module ParallelRead {
  import opened Outcomes
  import opened Ir
  import opened Relations
  import opened Partition
  import opened Sources
  import opened Typing
  import opened Injection
  import opened InjectionProofs
  import D = Decimals
  import P = DecimalProofs
  import W = WorkerPool

  /** What a partition's query returns on a connection of its own. */
  function PartitionFrame(w: World, spec: DsSpec, scan: ScanSpec, range: (nat, nat)): Result<D.Frame>
    requires scan.table.Some?
  {
    var s :- Answered(w, spec, map[], PartitionQuery(scan, range));
    P.RunQuery(DriverFields(s.schema), Batches(s.schema, CutBy(w.cut, s.heap)))
  }

  /** Job by job, the pool's environment answers as the source does for the ranges, or its backend fails. */
  ghost predicate Serves(env: W.Env, w: World, spec: DsSpec, scan: ScanSpec, ranges: seq<(nat, nat)>, jobs: seq<W.Job>)
    requires scan.table.Some?
  {
    && |jobs| == |ranges|
    && (forall schema, batches :: env.reconcile(schema, batches) == D.Reconcile(schema, batches))
    && (forall i :: 0 <= i < |jobs| ==> Answers(env, jobs[i], PartitionFrame(w, spec, scan, ranges[i])))
  }

  predicate Answers(env: W.Env, job: W.Job, frame: Result<D.Frame>) {
    W.JobResult(env, job) == Err(Backend) || W.JobResult(env, job) == frame
  }

  /** The relation a caller's frame holds. */
  function TableIn(r: Result<D.Frame>): Result<Table> {
    var f :- r;
    Ok(FrameTable(f))
  }

  // --- what the partitions answer ----------------------------------------------------------------------------

  /** A partition is answered exactly when the table exists and has the columns. */
  predicate Answerable(w: World, spec: DsSpec, scan: ScanSpec)
    requires scan.table.Some?
  {
    var s := w.stored(spec, scan.schema, scan.table.value);
    s.Some? && HasColumns(s.value.schema, scan.columns)
  }

  lemma {:induction false} AnsweredIff(w: World, spec: DsSpec, scan: ScanSpec, range: (nat, nat))
    requires scan.table.Some?
    ensures var x := Answered(w, spec, map[], PartitionQuery(scan, range));
            && (x.Ok? <==> Answerable(w, spec, scan)) && (x.Err? ==> x.error == SourceRefused)
            && (x.Ok? ==>
                  x.value.schema ==
                    ProjectSchema(w.stored(spec, scan.schema, scan.table.value).value.schema, Some(scan.columns)))
  {
    PartitionReadsItsRange(w, spec, scan, range);
    var ps := PartitionQuery(scan, range).where_;
    forall k | 0 <= k < |ps| ensures PredColumns(ps[k]) == [] && !ps[k].InTemp? {
    }
  }

  /** Sources that answer every range under one schema, or refuse every range, are gathered or refused as a whole. */
  lemma {:induction false} GathersAll(ask: ((nat, nat)) -> Result<Stored>, ranges: seq<(nat, nat)>, i: nat)
    requires i < |ranges|
    requires forall a, b :: ask(a).Ok? <==> ask(b).Ok?
    requires forall a :: ask(a).Err? ==> ask(a).error == SourceRefused
    requires forall a, b :: ask(a).Ok? && ask(b).Ok? ==> ask(a).value.schema == ask(b).value.schema
    ensures var parts := Gather(ask, ranges);
            && (parts.Ok? ==> ask(ranges[i]) == Ok(Stored(parts.value.schema, parts.value.heaps[i])))
            && (parts.Err? ==> parts == Err(SourceRefused) && ask(ranges[i]) == Err(SourceRefused))
  {
    if |ranges| > 1 {
      assert i > 0 ==> ranges[1..][i - 1] == ranges[i];
      GathersAll(ask, ranges[1..], if i == 0 then 0 else i - 1);
    }
  }

  lemma {:induction false} GatheredAt(w: World, spec: DsSpec, scan: ScanSpec, ranges: seq<(nat, nat)>, i: nat)
    requires scan.table.Some? && i < |ranges|
    ensures var parts := GatherPartitions(w, spec, scan, ranges);
            var x := Answered(w, spec, map[], PartitionQuery(scan, ranges[i]));
            && (parts.Ok? ==> x == Ok(Stored(parts.value.schema, parts.value.heaps[i])))
            && (parts.Err? ==> parts == Err(SourceRefused) && x == Err(SourceRefused))
            && (parts.Ok? <==> Answerable(w, spec, scan))
  {
    var ask := Asker(w, spec, scan);
    forall range
      ensures ask(range).Ok? <==> Answerable(w, spec, scan)
      ensures ask(range).Err? ==> ask(range).error == SourceRefused
      ensures ask(range).Ok? ==>
                ask(range).value.schema == ProjectSchema(w.stored(spec, scan.schema, scan.table.value).value.schema,
                  Some(scan.columns))
    {
      AnsweredIff(w, spec, scan, range);
    }
    GathersAll(ask, ranges, i);
  }

  /** A served job returns its part of the gathered tuples, normalized by its own values. */
  lemma {:induction false} ServedPart(w: World, spec: DsSpec, scan: ScanSpec, ranges: seq<(nat, nat)>, i: nat)
    requires scan.table.Some? && i < |ranges|
    ensures var parts := GatherPartitions(w, spec, scan, ranges);
            && (parts.Err? ==> PartitionFrame(w, spec, scan, ranges[i]) == Err(SourceRefused))
            && (parts.Ok? ==>
                  var fields, batches := DriverFields(parts.value.schema),
                    DriverParts(parts.value.schema, w.cut, parts.value.heaps);
                  PartitionFrame(w, spec, scan, ranges[i]) == Ok(P.Normalized(fields, batches[i])))
  {
    GatheredAt(w, spec, scan, ranges, i);
    var parts := GatherPartitions(w, spec, scan, ranges);
    if parts.Ok? {
      var fields, batches := DriverFields(parts.value.schema),
        DriverParts(parts.value.schema, w.cut, parts.value.heaps);
      DriverPartsAreRaw(parts.value.schema, w.cut, parts.value.heaps);
      P.NormalizesToItsScale(fields, batches[i]);
    }
  }

  // --- what the caller gathers ---------------------------------------------------------------------------------

  lemma {:induction false} GatheredSnoc(fields: seq<D.Field>, parts: seq<seq<D.Batch>>, k: nat)
    requires k < |parts|
    ensures P.Gathered(fields, parts[..k + 1]) ==
              P.Gathered(fields, parts[..k]) + P.Normalized(fields, parts[k]).batches
  {
    if k == 0 {
      assert parts[..1] == [parts[0]] && parts[..0] == [] && [parts[0]][1..] == [];
    } else {
      GatheredSnoc(fields, parts[1..], k - 1);
      assert parts[1..][..k] == parts[..k + 1][1..] && parts[1..][..k - 1] == parts[..k][1..];
    }
  }

  /** Jobs that return the parts normalized, or a failing backend. */
  ghost predicate Normalizing(env: W.Env, fields: seq<D.Field>, parts: seq<seq<D.Batch>>, jobs: seq<W.Job>) {
    && |jobs| == |parts|
    && forall i :: 0 <= i < |jobs| ==> Answers(env, jobs[i], Ok(P.Normalized(fields, parts[i])))
  }

  lemma {:induction false} GathersParts(env: W.Env, fields: seq<D.Field>, parts: seq<seq<D.Batch>>, jobs: seq<W.Job>,
                                        k: nat)
    requires Normalizing(env, fields, parts, jobs) && k <= |jobs|
    ensures || W.Outcome(env, jobs[..k]) == Err(Backend)
            || W.Outcome(env, jobs[..k]) ==
                 Ok(W.Gathering(if k == 0 then None
                   else Some(P.Normalized(fields, parts[0]).schema), P.Gathered(fields, parts[..k])))
  {
    if k > 0 {
      GathersParts(env, fields, parts, jobs, k - 1);
      assert jobs[..k][..k - 1] == jobs[..k - 1];
      assert Answers(env, jobs[k - 1], Ok(P.Normalized(fields, parts[k - 1])));
      GatheredSnoc(fields, parts, k - 1);
    }
  }

  /** The caller's frame is the parallel fetch of the parts. */
  lemma {:induction false} DeliversParts(env: W.Env, fields: seq<D.Field>, parts: seq<seq<D.Batch>>, jobs: seq<W.Job>)
    requires Normalizing(env, fields, parts, jobs) && parts != [] && P.AllRaw(fields, parts)
    requires forall schema, batches :: env.reconcile(schema, batches) == D.Reconcile(schema, batches)
    ensures W.Delivered(env, jobs) == Err(Backend) || W.Delivered(env, jobs) == P.FetchParallel(fields, parts)
  {
    GathersParts(env, fields, parts, jobs, |jobs|);
    assert jobs[..|jobs|] == jobs && parts[..|parts|] == parts;
    P.ReadsGathered(fields, parts);
    P.NormalizesToItsScale(fields, parts[0]);
  }

  lemma {:induction false} DeliversTable(env: W.Env, schema: seq<Field>, cut: Cutter, heaps: seq<seq<Tuple>>,
                                         jobs: seq<W.Job>)
    requires heaps != [] && Normalizing(env, DriverFields(schema), DriverParts(schema, cut, heaps), jobs)
    requires forall fields, batches :: env.reconcile(fields, batches) == D.Reconcile(fields, batches)
    ensures W.Delivered(env, jobs) == Err(Backend) || TableIn(W.Delivered(env, jobs)) == ReadInParts(schema, cut, heaps)
  {
    DriverPartsAreRaw(schema, cut, heaps);
    DeliversParts(env, DriverFields(schema), DriverParts(schema, cut, heaps), jobs);
  }

  lemma {:induction false} DeliversRefusal(env: W.Env, jobs: seq<W.Job>)
    requires jobs != [] && Answers(env, jobs[0], Err(SourceRefused))
    ensures W.Delivered(env, jobs) == Err(Backend) || W.Delivered(env, jobs) == Err(SourceRefused)
  {
    assert jobs[..1][..0] == [] && jobs[..1][0] == jobs[0];
    W.OutcomeFails(env, jobs, 1);
  }

  lemma {:induction false} ServesParts(env: W.Env, w: World, spec: DsSpec, scan: ScanSpec, ranges: seq<(nat, nat)>,
                                       jobs: seq<W.Job>)
    requires scan.table.Some? && ranges != [] && Serves(env, w, spec, scan, ranges, jobs)
    ensures var gathered := GatherPartitions(w, spec, scan, ranges);
            && (gathered.Err? ==> gathered.error == SourceRefused && Answers(env, jobs[0], Err(SourceRefused)))
            && (gathered.Ok? ==>
                  Normalizing(env, DriverFields(gathered.value.schema),
                              DriverParts(gathered.value.schema, w.cut, gathered.value.heaps), jobs))
  {
    forall i: nat | i < |ranges| ensures Answers(env, jobs[i], PartitionFrame(w, spec, scan, ranges[i])) {
    }
    GatheredAt(w, spec, scan, ranges, 0);
    forall i: nat | i < |ranges| {
      ServedPart(w, spec, scan, ranges, i);
    }
  }

  // --- the whole read ------------------------------------------------------------------------------------------

  /** A caller ends with what its jobs deliver, under every schedule that can go no further. */
  lemma {:induction false} CallerEnds(env: W.Env, specs: map<string, W.Spec>, st: W.State, schedule: seq<W.Action>,
                                      end: W.State, c: nat)
    requires W.Initial(specs, st) && W.Runs(env, st, schedule, end) && !exists a :: W.Enabled(end, a)
    requires c < |st.callers|
    ensures c < |end.callers| && end.callers[c].result == Some(W.Delivered(env, st.callers[c].jobs))
  {
    W.MaximalSchedulesFinish(env, specs, st, schedule, end);
  }

  /**
   * Under every schedule of the pool that can go no further, a caller whose jobs read ranges that tile a table has
   * its result: the failure of a backend, the refusal of the source, or a frame. The frame is the plain read of the
   * table without DISTINCT and LIMIT, row for row and type for type, if and only if the widest scales survive the
   * split.
   */
  lemma {:induction false} AnyScheduleReadsTheTableIff(w: World, pins: Pins, ds: string, scan: ScanSpec,
                                                       ranges: seq<(nat, nat)>, env: W.Env, specs: map<string, W.Spec>,
                                                       st: W.State, schedule: seq<W.Action>, end: W.State, c: nat)
    requires ds in w.registry && w.registry[ds].kind == Postgres && scan.table.Some? && scan.columns != []
    requires Tiles(ranges)
    requires Ordered(w, w.registry[ds], scan)
    requires W.Initial(specs, st) && W.Runs(env, st, schedule, end) && !exists a :: W.Enabled(end, a)
    requires c < |st.callers| && Serves(env, w, w.registry[ds], scan, ranges, st.callers[c].jobs)
    ensures c < |end.callers| && end.callers[c].result.Some?
    ensures var r := end.callers[c].result.value;
            var parts := GatherPartitions(w, w.registry[ds], scan, ranges);
            || r == Err(Backend)
            || (parts == Err(SourceRefused) && r == Err(SourceRefused))
            || (parts.Ok? && r.Ok? &&
                  (Ok(FrameTable(r.value)) == FetchScan(w, pins, ds, PlainSpec(scan), None) <==>
                     ScalesSurvive(parts.value.schema, w.cut, parts.value.heaps)))
  {
    CallerEnds(env, specs, st, schedule, end, c);
    FrameIff(w, pins, ds, scan, ranges, env, st.callers[c].jobs);
  }

  lemma {:induction false} FrameIff(w: World, pins: Pins, ds: string, scan: ScanSpec, ranges: seq<(nat, nat)>,
                                    env: W.Env, jobs: seq<W.Job>)
    requires ds in w.registry && w.registry[ds].kind == Postgres && scan.table.Some? && scan.columns != []
    requires Tiles(ranges)
    requires Ordered(w, w.registry[ds], scan) && Serves(env, w, w.registry[ds], scan, ranges, jobs)
    ensures var r := W.Delivered(env, jobs);
            var parts := GatherPartitions(w, w.registry[ds], scan, ranges);
            || r == Err(Backend)
            || (parts == Err(SourceRefused) && r == Err(SourceRefused))
            || (parts.Ok? && r.Ok? &&
                  (Ok(FrameTable(r.value)) == FetchScan(w, pins, ds, PlainSpec(scan), None) <==>
                     ScalesSurvive(parts.value.schema, w.cut, parts.value.heaps)))
  {
    ServesParts(env, w, w.registry[ds], scan, ranges, jobs);
    var gathered := GatherPartitions(w, w.registry[ds], scan, ranges);
    if gathered.Ok? {
      TiledTuples(w, pins, ds, scan, ranges);
      PartsIff(env, gathered.value.schema, w.cut, gathered.value.heaps, jobs);
    } else {
      DeliversRefusal(env, jobs);
    }
  }

  lemma {:induction false} PartsIff(env: W.Env, schema: seq<Field>, cut: Cutter, heaps: seq<seq<Tuple>>,
                                    jobs: seq<W.Job>)
    requires schema != [] && heaps != []
    requires Normalizing(env, DriverFields(schema), DriverParts(schema, cut, heaps), jobs)
    requires forall fields, batches :: env.reconcile(fields, batches) == D.Reconcile(fields, batches)
    ensures var r := W.Delivered(env, jobs);
            || r == Err(Backend)
            || (r.Ok? && (FrameTable(r.value) == Read(Postgres, Stored(schema, Flat(heaps))) <==>
                 ScalesSurvive(schema, cut, heaps)))
  {
    DeliversTable(env, schema, cut, heaps, jobs);
    PartsReadIff(schema, cut, heaps);
  }

  /** Where the table's numerics fit, every schedule reads the table, or fails with a backend. */
  lemma {:induction false} AnyScheduleReadsTheTable(w: World, pins: Pins, ds: string, scan: ScanSpec,
                                                    ranges: seq<(nat, nat)>, env: W.Env, specs: map<string, W.Spec>,
                                                    st: W.State, schedule: seq<W.Action>, end: W.State, c: nat)
    requires ds in w.registry && w.registry[ds].kind == Postgres && scan.table.Some? && scan.columns != []
    requires Tiles(ranges)
    requires Ordered(w, w.registry[ds], scan) && Kept(w, pins, ds, PlainSpec(scan))
    requires W.Initial(specs, st) && W.Runs(env, st, schedule, end) && !exists a :: W.Enabled(end, a)
    requires c < |st.callers| && Serves(env, w, w.registry[ds], scan, ranges, st.callers[c].jobs)
    ensures c < |end.callers| && end.callers[c].result.Some?
    ensures end.callers[c].result.value == Err(Backend) ||
            TableIn(end.callers[c].result.value) == FetchScan(w, pins, ds, PlainSpec(scan), None)
  {
    AnyScheduleReadsTheTableIff(w, pins, ds, scan, ranges, env, specs, st, schedule, end, c);
    var parts := GatherPartitions(w, w.registry[ds], scan, ranges);
    if parts.Ok? {
      TiledTuples(w, pins, ds, scan, ranges);
      KeptSurvive(parts.value.schema, w.cut, parts.value.heaps);
      PartsReadIff(parts.value.schema, w.cut, parts.value.heaps);
    } else {
      RefusedPlainly(w, pins, ds, scan, ranges);
    }
  }

  /** A table whose partitions are refused is refused to the plain read. */
  lemma {:induction false} RefusedPlainly(w: World, pins: Pins, ds: string, scan: ScanSpec, ranges: seq<(nat, nat)>)
    requires ds in w.registry && w.registry[ds].kind == Postgres && scan.table.Some? && scan.columns != []
    requires ranges != []
    requires GatherPartitions(w, w.registry[ds], scan, ranges).Err?
    ensures FetchScan(w, pins, ds, PlainSpec(scan), None) == Err(SourceRefused)
  {
    GatheredAt(w, w.registry[ds], scan, ranges, 0);
    UnanswerableIsRefused(w, pins, ds, scan);
  }

  lemma {:induction false} UnanswerableIsRefused(w: World, pins: Pins, ds: string, scan: ScanSpec)
    requires ds in w.registry && w.registry[ds].kind == Postgres && scan.table.Some? && scan.columns != []
    requires !Answerable(w, w.registry[ds], scan)
    ensures FetchScan(w, pins, ds, PlainSpec(scan), None) == Err(SourceRefused)
  {
    assert VisibleTemps(pins, w.registry[ds]) == map[];
  }

  /** Where the plain read of a table succeeds and no value that fits alone is lost, so does a partitioned one. */
  lemma {:induction false} RangesSucceed(w: World, pins: Pins, ds: string, scan: ScanSpec, ranges: seq<(nat, nat)>)
    requires scan == PlainSpec(scan) && scan.columns != [] && scan.table.Some? && Tiles(ranges)
    requires ds in w.registry && w.registry[ds].kind == Postgres
    requires Ordered(w, w.registry[ds], scan) && FetchTuples(w, pins, ds, scan, None).Ok?
    requires StableTyping(FetchTuples(w, pins, ds, scan, None).value)
    ensures ReadRangesOf(w, w.registry[ds], scan, ranges).Ok?
  {
    var gathered := GatherPartitions(w, w.registry[ds], scan, ranges);
    if gathered.Ok? {
      TiledTuples(w, pins, ds, scan, ranges);
      StablePartsRead(gathered.value.schema, w.cut, gathered.value.heaps);
    } else {
      RefusedPlainly(w, pins, ds, scan, ranges);
    }
  }

  /** Where the mark is accepted and the plain read succeeds, so does the parallel one. */
  lemma {:induction false} AcceptedReadSucceeds(w: World, pins: Pins, ds: string, scan: ScanSpec)
    requires scan == PlainSpec(scan) && scan.columns != [] && scan.parallel && MarkAccepted(w, ds, scan)
    requires Ordered(w, w.registry[ds], scan) && FetchTuples(w, pins, ds, scan, None).Ok?
    requires StableTyping(FetchTuples(w, pins, ds, scan, None).value)
    ensures ParallelScan(w, ds, scan).Ok?
  {
    var pages := w.pages(w.registry[ds], scan.schema, scan.table.value).value;
    RangesSucceed(w, pins, ds, scan, PlannedRanges(pages));
    ScansPlannedRanges(w, ds, scan, pages);
  }

  lemma {:induction false} ScansPlannedRanges(w: World, ds: string, scan: ScanSpec, pages: nat)
    requires ds in w.registry && w.registry[ds].kind == Postgres && scan.table.Some?
    requires w.pages(w.registry[ds], scan.schema, scan.table.value) == Some(pages)
    ensures ParallelScan(w, ds, scan) == ReadRangesOf(w, w.registry[ds], scan, PlannedRanges(pages))
  {
  }

  /** A read under the `parallel` mark has the rows of the unmarked one, and succeeds where that does. */
  lemma {:induction false} MarkedReadIsPlain(w: World, pins: Pins, ds: string, scan: ScanSpec)
    requires !scan.distinct && scan.limit.None? && (scan.rawSql.None? || scan.table.None?)
    requires (scan.rawSql.None? ==> scan.columns != []) && (ds in w.registry ==> Ordered(w, w.registry[ds], scan))
    requires MarkAccepted(w, ds, scan) && MarkFits(scan, FetchTuples(w, pins, ds, scan, None))
    ensures FetchScan(w, pins, ds, scan, None).Ok? ==>
              && FetchSource(w, pins, ds, scan).Ok?
              && SameRead(FetchSource(w, pins, ds, scan).value, FetchScan(w, pins, ds, scan, None).value)
  {
    if scan.parallel && FetchScan(w, pins, ds, scan, None).Ok? {
      assert PlainSpec(scan) == scan;
      AcceptedReadSucceeds(w, pins, ds, scan);
      ParallelReadHasPlainRows(w, pins, ds, scan);
    }
  }

  /** Where a spec is marked `parallel`, no value that fits alone is lost to the plain read. */
  ghost predicate MarkFits(scan: ScanSpec, plain: Result<Stored>) {
    scan.parallel && plain.Ok? ==> StableTyping(plain.value)
  }
}
