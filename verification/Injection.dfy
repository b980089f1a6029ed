/** Reading a probe reduced by the build side's keys: the delivery strategies and what they fetch. */
module Injection {
  import opened Outcomes
  import opened Ir
  import opened Relations
  import opened Partition
  import opened Sources
  import opened Typing

  const IN_CAP: nat := 2000
  const FULL_SCAN_FRACTION: real := 0.40
  const PG_FULL_SCAN_FRACTION: real := 0.15
  const DUCK_TEMP_CAP: nat := 2_000_000
  const PARALLEL_PARTITIONS: nat := 8
  const DYN_KEYS_TEMP_TABLE: string := "fedq_dyn_keys"

  function Lookup(w: World, ds: string): Result<DsSpec> {
    if ds in w.registry then Ok(w.registry[ds]) else Err(NotRegistered(ds))
  }

  /** A pinned DuckDB connection shows its shipped tables to every fetch on its path. */
  function VisibleTemps(pins: Pins, spec: DsSpec): Temps {
    if spec.kind == DuckDb && spec.uri in pins then pins[spec.uri] else map[]
  }

  const DUCK_DEFAULT_SCHEMA: string := "main"

  /** A world in which some DuckDB tables of the default schema, by path and name, are dropped. */
  function Without(w: World, dropped: set<(string, string)>): World {
    w.(stored := (spec: DsSpec, schema: Option<string>, table: string) =>
         if spec.kind == DuckDb && (schema.None? || schema.value == DUCK_DEFAULT_SCHEMA) && (spec.uri, table) in dropped
         then None else w.stored(spec, schema, table))
  }

  function ShippedNames(pins: Pins): set<(string, string)> {
    set uri, table | uri in pins && table in pins[uri] :: (uri, table)
  }

  /** A ship drops the stored namesake of its table before it creates its own. */
  function Now(w: World, pins: Pins): World {
    Without(w, ShippedNames(pins))
  }

  function StaticFilter(scan: ScanSpec): seq<Pred> {
    if scan.filter.Some? then [Matches(scan.filter.value)] else []
  }

  /** The query of a plain or filtered scan; `extra` is the dynamic filter, if any. */
  function ScanQuery(scan: ScanSpec, extra: Option<seq<Pred>>): Result<Query> {
    if scan.rawSql.Some? then
      match extra
      case None => Ok(Prerendered(scan.rawSql.value))
      case Some(ps) => Ok(Select(Derived(scan.rawSql.value), None, false, None, ps))
    else if scan.table.None? || scan.columns == [] then Err(BadSpec)
    else
      var dynamic := if extra.Some? then extra.value else [];
      Ok(Select(Base(scan.schema, scan.table.value), Some(scan.columns), scan.distinct, scan.limit,
                StaticFilter(scan) + dynamic))
  }

  /** The server-side semi-join of the probe with the ingested keys; it renders no DISTINCT and no LIMIT. */
  function TempJoinQuery(scan: ScanSpec, keyColumn: string, column: string): Result<Query> {
    var membership := InTemp(column, keyColumn, DYN_KEYS_TEMP_TABLE);
    if scan.rawSql.Some? then Ok(Select(Derived(scan.rawSql.value), None, false, None, [membership]))
    else if scan.table.None? || scan.columns == [] then Err(BadSpec)
    else Ok(Select(Base(scan.schema, scan.table.value), Some(scan.columns), false, None,
                   StaticFilter(scan) + [membership]))
  }

  function Answered(w: World, spec: DsSpec, temps: Temps, q: Query): Result<Stored> {
    match Answer(w, spec, temps, q)
    case None => Err(SourceRefused)
    case Some(s) => Ok(s)
  }

  /** The relation a connector returns for a query: what the source answers, typed as that source's reads are. */
  function Queried(w: World, spec: DsSpec, temps: Temps, q: Query): Result<Table> {
    var s :- Answered(w, spec, temps, q);
    Ok(Read(spec.kind, s))
  }

  /** What the source answers to a scan. */
  function FetchTuples(w: World, pins: Pins, ds: string, scan: ScanSpec, extra: Option<seq<Pred>>): Result<Stored> {
    var spec :- Lookup(w, ds);
    var q :- ScanQuery(scan, extra);
    Answered(w, spec, VisibleTemps(pins, spec), q)
  }

  function FetchScan(w: World, pins: Pins, ds: string, scan: ScanSpec, extra: Option<seq<Pred>>): Result<Table> {
    var spec :- Lookup(w, ds);
    var s :- FetchTuples(w, pins, ds, scan, extra);
    Ok(Read(spec.kind, s))
  }

  function PartitionQuery(scan: ScanSpec, range: (nat, nat)): Query
    requires scan.table.Some?
  {
    Select(Base(scan.schema, scan.table.value), Some(scan.columns), false, None,
           [CtidIn(range.0, range.1)] + StaticFilter(scan))
  }

  /** The partitions' answers in range order, under the schema of the first. */
  datatype Parts = Parts(schema: seq<Field>, heaps: seq<seq<Tuple>>)

  /** What the source answers to one partition's query. */
  function Asker(w: World, spec: DsSpec, scan: ScanSpec): ((nat, nat)) -> Result<Stored>
    requires scan.table.Some?
  {
    (range: (nat, nat)) => Answered(w, spec, map[], PartitionQuery(scan, range))
  }

  /** Every range's answer, or the first failure in range order. */
  function Gather(ask: ((nat, nat)) -> Result<Stored>, ranges: seq<(nat, nat)>): (r: Result<Parts>)
    requires ranges != []
    ensures r.Ok? ==> |r.value.heaps| == |ranges|
  {
    var first :- ask(ranges[0]);
    if |ranges| == 1 then Ok(Parts(first.schema, [first.heap]))
    else
      var rest :- Gather(ask, ranges[1..]);
      Ok(Parts(first.schema, [first.heap] + rest.heaps))
  }

  function GatherPartitions(w: World, spec: DsSpec, scan: ScanSpec, ranges: seq<(nat, nat)>): (r: Result<Parts>)
    requires scan.table.Some? && ranges != []
    ensures r.Ok? ==> |r.value.heaps| == |ranges|
  {
    Gather(Asker(w, spec, scan), ranges)
  }

  /** The partitioned read over some ranges: each partition typed by its own values, then reconciled. */
  function ReadRangesOf(w: World, spec: DsSpec, scan: ScanSpec, ranges: seq<(nat, nat)>): Result<Table>
    requires scan.table.Some? && ranges != []
  {
    var parts :- GatherPartitions(w, spec, scan, ranges);
    ReadInParts(parts.schema, w.cut, parts.heaps)
  }

  function PlannedRanges(pages: nat): (ranges: seq<(nat, nat)>)
    ensures Tiles(ranges)
  {
    RangesTile(pages % (U32_MAX + 1), PARALLEL_PARTITIONS);
    Ranges(pages % (U32_MAX + 1), PARALLEL_PARTITIONS)
  }

  /** The ctid-partitioned read of a whole Postgres table under the static filter. */
  function ParallelScan(w: World, ds: string, scan: ScanSpec): Result<Table> {
    var spec :- Lookup(w, ds);
    if scan.table.None? || spec.kind != Postgres then Err(BadSpec)
    else
      match w.pages(spec, scan.schema, scan.table.value)
      case None => Err(SourceRefused)
      case Some(pages) =>
        ReadRangesOf(w, spec, scan, PlannedRanges(pages))
  }

  /** A plain source read; a spec marked `parallel` must be a plain Postgres table read. */
  function FetchSource(w: World, pins: Pins, ds: string, scan: ScanSpec): Result<Table> {
    if !scan.parallel then FetchScan(w, pins, ds, scan, None)
    else
      var spec :- Lookup(w, ds);
      if spec.kind == Postgres && scan.table.Some? && !scan.distinct && scan.limit.None?
      then ParallelScan(w, ds, scan)
      else Err(BadSpec)
  }

  /** A spec marked `parallel` is a plain read of a Postgres table whose page count the catalog knows. */
  predicate MarkAccepted(w: World, ds: string, scan: ScanSpec) {
    scan.parallel ==>
      && ds in w.registry && w.registry[ds].kind == Postgres && scan.table.Some? && !scan.distinct && scan.limit.None?
      && w.pages(w.registry[ds], scan.schema, scan.table.value).Some?
  }

  function KeyValues(keys: Table): seq<Value> {
    Map((r: Row) => if r == [] then Null else r[0], keys.rows)
  }

  function KeyName(keys: Table): string {
    if keys.schema == [] then "" else keys.schema[0].name
  }

  datatype KeySet = KeySet(column: string, keys: Table)

  /** An extra key set rides along as an IN list when it is not empty, and under the cap. */
  predicate RidesAlong(k: KeySet) {
    0 < |k.keys.rows| < IN_CAP
  }

  /** The extra key sets small enough to ride along. */
  function ExtraFilters(extras: seq<KeySet>): seq<Pred> {
    if extras == [] then []
    else if RidesAlong(extras[0])
    then ExtraFilters(extras[1..]) + [InList(extras[0].column, KeyValues(extras[0].keys))]
    else ExtraFilters(extras[1..])
  }

  /** Whether DuckDB's temp-table ingest has a column type for these keys. */
  predicate DuckCanIngest(keys: Table) {
    keys.schema != [] && !keys.schema[0].dtype.OtherType?
  }

  function FetchesMostOfTable(w: World, spec: DsSpec, scan: ScanSpec, column: string, numKeys: nat,
                              ndv: Option<nat>): bool
    requires scan.table.Some?
  {
    var threshold := if spec.kind == Postgres then PG_FULL_SCAN_FRACTION else FULL_SCAN_FRACTION;
    if ndv.Some? && 0 < ndv.value then numKeys as real / ndv.value as real > threshold
    else
      match w.estimate(spec, scan.schema, scan.table.value, column, numKeys)
      case None => false
      case Some(fraction) => fraction > threshold
  }

  function UnselectiveProbe(w: World, pins: Pins, spec: DsSpec, ds: string, scan: ScanSpec): Result<Table> {
    if spec.kind == Postgres then ParallelScan(w, ds, scan) else FetchScan(w, pins, ds, scan, None)
  }

  /** The keys as the temp table of a fresh session: no other temp table is visible beside it. */
  function KeyTemps(keys: Table): Temps {
    map[DYN_KEYS_TEMP_TABLE := keys]
  }

  function TempTableProbe(w: World, spec: DsSpec, scan: ScanSpec, keys: Table, column: string): Result<Table> {
    var q :- if scan.injectedSql.Some? then Ok(Prerendered(scan.injectedSql.value))
             else TempJoinQuery(scan, KeyName(keys), column);
    if spec.kind == Parquet then Err(BadSpec) else Queried(w, spec, KeyTemps(keys), q)
  }

  /** The ways to deliver keys: none match, an IN list, the extra lists alone, no reduction, a temp-table semi-join. */
  datatype Delivery = NothingMatches | InlineList | ExtrasAlone | WholeProbe | SemiJoin

  /** The cheapest delivery for the key count, the source and its statistics. */
  function Chosen(w: World, spec: DsSpec, scan: ScanSpec, column: string, keys: Table, ndv: Option<nat>): Delivery {
    var numKeys := |keys.rows|;
    if numKeys == 0 then NothingMatches
    else if numKeys < IN_CAP && scan.injectedSql.None? then InlineList
    else if spec.kind == Parquet then ExtrasAlone
    else if spec.kind == DuckDb && (numKeys > DUCK_TEMP_CAP || !DuckCanIngest(keys)) then ExtrasAlone
    else if spec.kind == Postgres && scan.table.Some? && !w.indexed(spec, scan.schema, scan.table.value, column) then
      WholeProbe
    else if scan.table.Some? && FetchesMostOfTable(w, spec, scan, column, numKeys, ndv) then WholeProbe
    else SemiJoin
  }

  /** The dynamic filter of a delivery that is a scan of the source. */
  function FilterOf(delivery: Delivery, primary: Pred, extras: seq<Pred>): Option<seq<Pred>> {
    match delivery
    case NothingMatches => Some([Never])
    case InlineList => Some([primary] + extras)
    case ExtrasAlone => if extras == [] then None else Some(extras)
    case _ => None
  }

  /** The probe read under the chosen delivery, given the filters built from the key sets. */
  function Deliver(w: World, pins: Pins, ds: string, scan: ScanSpec, column: string, keys: Table, ndv: Option<nat>,
                   primary: Pred, extras: seq<Pred>): Result<Table>
  {
    var spec :- Lookup(w, ds);
    match Chosen(w, spec, scan, column, keys, ndv)
    case WholeProbe => UnselectiveProbe(w, pins, spec, ds, scan)
    case SemiJoin => TempTableProbe(w, spec, scan, keys, column)
    case delivery => FetchScan(w, pins, ds, scan, FilterOf(delivery, primary, extras))
  }

  /** The probe read reduced by its primary keys, and by the extra key sets where a filter slot exists. */
  function RunInjectedScan(w: World, pins: Pins, ds: string, scan: ScanSpec, column: string, keys: Table,
                           ndv: Option<nat>, extras: seq<KeySet>): Result<Table>
  {
    Deliver(w, pins, ds, scan, column, keys, ndv, InList(column, KeyValues(keys)), ExtraFilters(extras))
  }

  /** The deliveries that are one scan of the source; the temp-table and partitioned ones render their own SQL. */
  predicate IsScan(kind: DsKind, delivery: Delivery) {
    !delivery.SemiJoin? && (delivery.WholeProbe? ==> kind != Postgres)
  }

  function Riders(): KeySet -> bool {
    (k: KeySet) => RidesAlong(k)
  }

  /** The key sets a delivery filters by. */
  function UsedSets(delivery: Delivery, column: string, keys: Table, extras: seq<KeySet>): seq<KeySet> {
    match delivery
    case NothingMatches => [KeySet(column, keys)]
    case InlineList => [KeySet(column, keys)] + Filter(Riders(), extras)
    case ExtrasAlone => Filter(Riders(), extras)
    case WholeProbe => []
    case SemiJoin => [KeySet(column, keys)]
  }

  /** `column IN (v1, v2, ..)` from the collected key values. */
  method InListFilter(keys: Table, column: string) returns (p: Pred)
    ensures p == InList(column, KeyValues(keys))
  {
    var values: seq<Value> := [];
    for i := 0 to |keys.rows|
      invariant values == KeyValues(keys)[..i]
    {
      values := values + [if keys.rows[i] == [] then Null else keys.rows[i][0]];
    }
    return InList(column, values);
  }

  /** The conjunction of every extra key set as an IN list, skipping empty and over-cap sets. */
  method ExtrasInFilter(extras: seq<KeySet>) returns (combined: seq<Pred>)
    ensures combined == ExtraFilters(extras)
  {
    combined := [];
    for n := 0 to |extras|
      invariant combined == ExtraFilters(extras[..n])
    {
      ExtraFiltersSnoc(extras, n);
      if !RidesAlong(extras[n]) {
        continue;
      }
      var filter := InListFilter(extras[n].keys, extras[n].column);
      combined := [filter] + combined;
    }
    assert extras[..|extras|] == extras;
  }

  function InListOf(k: KeySet): Pred {
    InList(k.column, KeyValues(k.keys))
  }

  /** The filter holds an IN list for exactly the key sets that ride along. */
  lemma {:induction false} ExtraFiltersExactly(extras: seq<KeySet>, p: Pred)
    ensures p in ExtraFilters(extras) <==>
              exists i :: 0 <= i < |extras| && RidesAlong(extras[i]) && p == InListOf(extras[i])
  {
    if extras != [] {
      var rest := extras[1..];
      ExtraFiltersExactly(rest, p);
      if i :| 0 <= i < |rest| && RidesAlong(rest[i]) && p == InListOf(rest[i]) {
        assert extras[i + 1] == rest[i];
      }
      if i :| 0 <= i < |extras| && RidesAlong(extras[i]) && p == InListOf(extras[i]) {
        assert i > 0 ==> rest[i - 1] == extras[i];
      }
    }
  }

  lemma {:induction false} ExtraFiltersSnoc(extras: seq<KeySet>, n: nat)
    requires n < |extras|
    ensures ExtraFilters(extras[..n + 1]) ==
              (if RidesAlong(extras[n]) then [InList(extras[n].column, KeyValues(extras[n].keys))] else []) +
                ExtraFilters(extras[..n])
  {
    if n == 0 {
      assert extras[..1][1..] == [];
    } else {
      assert extras[..n + 1][1..] == extras[1..][..n] && extras[..n][1..] == extras[1..][..n - 1];
      ExtraFiltersSnoc(extras[1..], n - 1);
    }
  }

  /** A probe row that some key of the set can join: its column is not NULL and is one of the keys. */
  predicate Hits(schema: seq<Field>, row: Row, k: KeySet) {
    var v := Cell(schema, row, k.column);
    v != Null && v in KeyValues(k.keys)
  }

  predicate HitsAll(schema: seq<Field>, row: Row, ks: seq<KeySet>) {
    forall i :: 0 <= i < |ks| ==> Hits(schema, row, ks[i])
  }

  function Hitter(schema: seq<Field>, ks: seq<KeySet>): Row -> bool {
    (r: Row) => HitsAll(schema, r, ks)
  }

  function Hitting(t: Table, ks: seq<KeySet>): seq<Row> {
    Filter(Hitter(t.schema, ks), t.rows)
  }

  function FromOf(scan: ScanSpec): From {
    if scan.rawSql.Some? then Derived(scan.rawSql.value)
    else Base(scan.schema, if scan.table.Some? then scan.table.value else "")
  }

  function TupleHitter(schema: seq<Field>, ks: seq<KeySet>): Tuple -> bool {
    (t: Tuple) => HitsAll(schema, t.row, ks)
  }

  /** The part of an answer whose rows all the key sets can join. */
  function HitTuples(s: Stored, ks: seq<KeySet>): Stored {
    Stored(s.schema, Filter(TupleHitter(s.schema, ks), s.heap))
  }

  /** The scan reads the same relation on the key-ingest session as on the query's own session. */
  predicate SameFromItem(w: World, pins: Pins, spec: DsSpec, scan: ScanSpec, keys: Table) {
    FromItem(w, spec, KeyTemps(keys), FromOf(scan)) == FromItem(w, spec, VisibleTemps(pins, spec), FromOf(scan))
  }

  /** The planner's prerendered island means the probe's own SQL restricted to the ingested keys. */
  ghost predicate IslandMeansReduced(w: World, pins: Pins, spec: DsSpec, scan: ScanSpec, column: string, keys: Table) {
    scan.injectedSql.Some? ==>
      && scan.rawSql.Some?
      && var base := w.raw(spec, scan.rawSql.value, VisibleTemps(pins, spec));
         && base.Some?
         && w.raw(spec, scan.injectedSql.value, KeyTemps(keys)) == Some(HitTuples(base.value, [KeySet(column, keys)]))
  }

  /** The stored tuples are in physical order, as a partitioned read relies on. */
  ghost predicate Ordered(w: World, spec: DsSpec, scan: ScanSpec) {
    spec.kind == Postgres && scan.table.Some? ==>
      var s := w.stored(spec, scan.schema, scan.table.value);
      s.Some? ==> InCtidOrder(s.value.heap)
  }

  predicate ColumnsIn(extras: seq<KeySet>, columns: seq<string>) {
    forall i :: 0 <= i < |extras| ==> extras[i].column in columns
  }

  /** What the temp-table semi-join assumes: a key session that shows the probe, and an island that means it. */
  ghost predicate SessionAgrees(w: World, pins: Pins, spec: DsSpec, scan: ScanSpec, column: string, keys: Table) {
    SameFromItem(w, pins, spec, scan, keys) && IslandMeansReduced(w, pins, spec, scan, column, keys)
  }

  /** What an injected scan assumes of its spec, its keys and its source, beside the values that it reads. */
  ghost predicate Deliverable(w: World, pins: Pins, ds: string, scan: ScanSpec, column: string, keys: Table,
                              ndv: Option<nat>, extras: seq<KeySet>)
  {
    && !scan.distinct && scan.limit.None?
    && (scan.rawSql.None? || scan.table.None?)
    && (scan.rawSql.None? ==>
          column in scan.columns && ColumnsIn(extras, scan.columns))
    && (ds in w.registry ==>
          var spec := w.registry[ds];
          && (Chosen(w, spec, scan, column, keys, ndv) == SemiJoin ==> SessionAgrees(w, pins, spec, scan, column, keys))
          && Ordered(w, spec, scan))
  }

  /**
   * Reading less of a Postgres relation changes no value it reads: for a partitioned read, or for one under key sets.
   */
  ghost predicate Fitting(spec: DsSpec, delivery: Delivery, plain: Result<Stored>) {
    spec.kind == Postgres && plain.Ok? ==>
      if delivery == WholeProbe then StableTyping(plain.value) else NothingTurns(plain.value)
  }

  ghost predicate Injectable(w: World, pins: Pins, ds: string, scan: ScanSpec, column: string, keys: Table,
                             ndv: Option<nat>, extras: seq<KeySet>)
  {
    && Deliverable(w, pins, ds, scan, column, keys, ndv, extras)
    && (ds in w.registry ==>
          Fitting(w.registry[ds], Chosen(w, w.registry[ds], scan, column, keys, ndv),
            FetchTuples(w, pins, ds, scan, None)))
  }

  /** The plain scan reads every value as itself. */
  ghost predicate Kept(w: World, pins: Pins, ds: string, scan: ScanSpec) {
    ds in w.registry && w.registry[ds].kind == Postgres && FetchTuples(w, pins, ds, scan, None).Ok? ==>
      KeepsValues(FetchTuples(w, pins, ds, scan, None).value)
  }

  /** Between the rows the keys can join and the whole base scan, as multisets; decimal scales may differ. */
  ghost predicate Sandwiched(base: Table, fetched: Table, ks: seq<KeySet>) {
    && SameShape(fetched.schema, base.schema)
    && multiset(Hitting(base, ks)) <= multiset(fetched.rows) <= multiset(base.rows)
  }
}
