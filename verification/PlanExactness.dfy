/** Semi-join injection at plan level: collecting keys, reading a reduced probe and joining is the plain join. */
module PlanExactness {
  import opened Outcomes
  import opened Ir
  import opened Relations
  import opened Sources
  import opened Typing
  import opened Injection
  import opened InjectionProofs
  import opened Joins
  import opened Keys

  lemma {:induction false} FilterMonotone<T>(p: T -> bool, q: T -> bool, s: seq<T>)
    requires forall k :: 0 <= k < |s| && p(s[k]) ==> q(s[k])
    ensures multiset(Filter(p, s)) <= multiset(Filter(q, s))
  {
    if s != [] {
      FilterMonotone(p, q, s[1..]);
    }
  }

  /** One key pair of a join: the probe's column against the column the keys were collected from. */
  ghost predicate JoinsOn(j: JoinSpec, probe: Side, i: nat, probeColumn: string, buildColumn: string) {
    && i < |j.leftKeys| && i < |j.rightKeys|
    && (probe == InLeft ==> j.leftKeys[i] == probeColumn && j.rightKeys[i] == buildColumn)
    && (probe == InRight ==> j.rightKeys[i] == probeColumn && j.leftKeys[i] == buildColumn)
  }

  function ProbeSchema(j: JoinSpec, probe: Side): seq<Field> {
    if probe == InLeft then j.left else j.right
  }

  function BuildSchema(j: JoinSpec, probe: Side): seq<Field> {
    if probe == InLeft then j.right else j.left
  }

  /** A probe row some build row matches carries one of the keys collected from the build. */
  lemma {:induction false} JoinableHitsKeys(j: JoinSpec, probe: Side, i: nat, build: Table, key: string, column: string,
                                            p: Row)
    requires JoinsOn(j, probe, i, column, key) && BuildSchema(j, probe) == build.schema
    requires DistinctKeys(build, key).Ok?
    requires Joinable(j, probe, build.rows, p)
    ensures Hits(ProbeSchema(j, probe), p, KeySet(column, DistinctKeys(build, key).value))
  {
    var k :| 0 <= k < |build.rows| &&
             if probe == InLeft then RowsMatch(j, p, build.rows[k]) else RowsMatch(j, build.rows[k], p);
    var v := Cell(build.schema, build.rows[k], key);
    assert v != Null && v == Cell(ProbeSchema(j, probe), p, column);
    CollectedKeys(build, key, v);
  }

  /**
   * For every reducible join kind and side, every multi-key equi-join, every source and every delivery strategy:
   * joining the injected scan gives the same rows as joining the plain scan of the probe.
   */
  lemma {:induction false} InjectionIsExact(w: World, pins: Pins, ds: string, scan: ScanSpec, ndv: Option<nat>,
                                            build: Table, key: string, column: string, kind: JoinKind, j: JoinSpec,
                                            probe: Side, i: nat)
    requires Reducible(kind, probe) && JoinsOn(j, probe, i, column, key)
    requires DistinctKeys(build, key).Ok?
    requires Injectable(w, pins, ds, scan, column, DistinctKeys(build, key).value, ndv, [])
    requires BuildSchema(j, probe) == build.schema
    requires FetchScan(w, pins, ds, scan, None).Ok? ==>
               FetchScan(w, pins, ds, scan, None).value.schema == ProbeSchema(j, probe)
    ensures RunInjectedScan(w, pins, ds, scan, column, DistinctKeys(build, key).value, ndv, []).Ok? ==>
              && FetchScan(w, pins, ds, scan, None).Ok?
              && var fetched := RunInjectedScan(w, pins, ds, scan, column, DistinctKeys(build, key).value, ndv,
                   []).value;
                 var base := FetchScan(w, pins, ds, scan, None).value;
                 && SameShape(fetched.schema, base.schema)
                 && JoinWith(kind, j, probe, build.rows, fetched.rows) ==
                      JoinWith(kind, j, probe, build.rows, base.rows)
  {
    var keys := DistinctKeys(build, key).value;
    if RunInjectedScan(w, pins, ds, scan, column, keys, ndv, []).Err? {
      return;
    }
    StrategySandwich(w, pins, ds, scan, column, keys, ndv, []);
    var fetched := RunInjectedScan(w, pins, ds, scan, column, keys, ndv, []).value;
    var base := FetchScan(w, pins, ds, scan, None).value;
    assert [KeySet(column, keys)] + [] == [KeySet(column, keys)];
    SandwichIsExact(build, key, column, kind, j, probe, i, base, fetched);
  }

  /** Whatever lies between the rows the collected keys can join and the whole base joins like the base. */
  lemma {:induction false} SandwichIsExact(build: Table, key: string, column: string, kind: JoinKind, j: JoinSpec,
                                           probe: Side, i: nat, base: Table, fetched: Table)
    requires Reducible(kind, probe) && JoinsOn(j, probe, i, column, key)
    requires DistinctKeys(build, key).Ok?
    requires BuildSchema(j, probe) == build.schema && base.schema == ProbeSchema(j, probe)
    requires Sandwiched(base, fetched, [KeySet(column, DistinctKeys(build, key).value)])
    ensures JoinWith(kind, j, probe, build.rows, fetched.rows) == JoinWith(kind, j, probe, build.rows, base.rows)
  {
    var ks := [KeySet(column, DistinctKeys(build, key).value)];
    forall k | 0 <= k < |base.rows| && Joinable(j, probe, build.rows, base.rows[k])
      ensures HitsAll(base.schema, base.rows[k], ks)
    {
      JoinableHitsKeys(j, probe, i, build, key, column, base.rows[k]);
    }
    FilterMonotone(JoinableRows(j, probe, build.rows), Hitter(base.schema, ks), base.rows);
    ReducedProbeIsExact(kind, j, probe, build.rows, base.rows, fetched.rows);
  }

  // --- several joins on one probe ------------------------------------------------------------

  /**
   * A join that each probe row meets on its own: it adds a dimension's columns, or keeps or drops the row, and makes
   * a row of its own of each row joined.
   */
  datatype Dimension = Dimension(kind: JoinKind, j: JoinSpec, rows: seq<Row>, project: Row -> Row)

  predicate RowWise(kind: JoinKind) {
    kind == Inner || kind == Left || kind == Semi || kind == Anti
  }

  function Pairs(j: JoinSpec, l: Row, right: seq<Row>): seq<Row> {
    if right == [] then []
    else (if RowsMatch(j, l, right[0]) then [l + right[0]] else []) + Pairs(j, l, right[1..])
  }

  /** The rows one row is joined to. */
  function Joined(d: Dimension, l: Row): seq<Row> {
    var matched := LeftHasMatch(d.j, l, d.rows);
    match d.kind
    case Semi => if matched then [l] else []
    case Anti => if matched then [] else [l]
    case Left => if matched then Pairs(d.j, l, d.rows) else [l + Nulls(|d.j.right|)]
    case _ => Pairs(d.j, l, d.rows)
  }

  function Joiner(d: Dimension): Row -> seq<Row> {
    (l: Row) => Joined(d, l)
  }

  function ForEach(f: Row -> seq<Row>, rows: seq<Row>): seq<Row> {
    if rows == [] then [] else f(rows[0]) + ForEach(f, rows[1..])
  }

  function JoinedRows(d: Dimension, left: seq<Row>): seq<Row> {
    Map(d.project, ForEach(Joiner(d), left))
  }

  function StarRows(dims: seq<Dimension>, probe: seq<Row>): seq<Row> {
    if dims == [] then probe else StarRows(dims[1..], JoinedRows(dims[0], probe))
  }

  function StarOf(dims: seq<Dimension>): Row -> multiset<Row> {
    (p: Row) => multiset(StarRows(dims, [p]))
  }

  /** The row-by-row join, before its projection, is the join of the multiset semantics. */
  lemma {:induction false} JoinedRowsIsJoin(d: Dimension, left: seq<Row>)
    requires RowWise(d.kind)
    ensures multiset(ForEach(Joiner(d), left)) == Join(d.kind, d.j, left, d.rows)
  {
    var none := (r: Row) => false;
    SumFilter(RightPart(d.kind, d.j, left), none, d.rows);
    FilterNothing(none, d.rows);
    JoinedRowsIsSum(d, left);
  }

  lemma {:induction false} JoinedRowsIsSum(d: Dimension, left: seq<Row>)
    requires RowWise(d.kind)
    ensures multiset(ForEach(Joiner(d), left)) == Sum(LeftPart(d.kind, d.j, d.rows), left)
  {
    if left != [] {
      JoinedRowsIsSum(d, left[1..]);
      JoinedIsShare(d, left[0]);
      assert ForEach(Joiner(d), left) == Joined(d, left[0]) + ForEach(Joiner(d), left[1..]);
    }
  }

  lemma {:induction false} JoinedIsShare(d: Dimension, l: Row)
    requires RowWise(d.kind)
    ensures multiset(Joined(d, l)) == LeftShare(d.kind, d.j, d.rows, l)
  {
    if d.kind == Inner || d.kind == Left {
      PairsIsSum(d.j, l, d.rows);
      if !LeftHasMatch(d.j, l, d.rows) {
        NoMatchNoPairs(d.j, l, d.rows);
      }
    }
  }

  lemma {:induction false} PairsIsSum(j: JoinSpec, l: Row, right: seq<Row>)
    ensures multiset(Pairs(j, l, right)) == Sum(PairWith(j, l), right)
  {
    if right != [] {
      PairsIsSum(j, l, right[1..]);
    }
  }

  lemma {:induction false} ForEachAppend(f: Row -> seq<Row>, a: seq<Row>, b: seq<Row>)
    ensures ForEach(f, a + b) == ForEach(f, a) + ForEach(f, b)
  {
    if a == [] {
      assert a + b == b;
    } else {
      ForEachAppend(f, a[1..], b);
      assert (a + b)[1..] == a[1..] + b;
      Reassociate(f(a[0]), ForEach(f, a[1..]), ForEach(f, b));
    }
  }

  lemma {:induction false} Reassociate(a: seq<Row>, b: seq<Row>, c: seq<Row>)
    ensures a + (b + c) == a + b + c
  {
  }

  lemma {:induction false} JoinedAppend(d: Dimension, a: seq<Row>, b: seq<Row>)
    ensures JoinedRows(d, a + b) == JoinedRows(d, a) + JoinedRows(d, b)
  {
    ForEachAppend(Joiner(d), a, b);
    MapAppend(d.project, ForEach(Joiner(d), a), ForEach(Joiner(d), b));
  }

  lemma {:induction false} StarAppend(dims: seq<Dimension>, a: seq<Row>, b: seq<Row>)
    ensures StarRows(dims, a + b) == StarRows(dims, a) + StarRows(dims, b)
  {
    if dims != [] {
      JoinedAppend(dims[0], a, b);
      StarAppend(dims[1..], JoinedRows(dims[0], a), JoinedRows(dims[0], b));
    }
  }

  lemma {:induction false} StarIsSum(dims: seq<Dimension>, probe: seq<Row>)
    ensures multiset(StarRows(dims, probe)) == Sum(StarOf(dims), probe)
  {
    if probe == [] {
      NothingStars(dims);
    } else {
      assert probe == [probe[0]] + probe[1..];
      StarAppend(dims, [probe[0]], probe[1..]);
      StarIsSum(dims, probe[1..]);
    }
  }

  /** The order of the probe's rows is irrelevant to a star. */
  lemma {:induction false} StarPermutes(dims: seq<Dimension>, a: seq<Row>, b: seq<Row>)
    requires multiset(a) == multiset(b)
    ensures multiset(StarRows(dims, a)) == multiset(StarRows(dims, b))
  {
    StarIsSum(dims, a);
    StarIsSum(dims, b);
    SumPermutes(StarOf(dims), a, b);
  }

  lemma {:induction false} NothingStars(dims: seq<Dimension>)
    ensures StarRows(dims, []) == []
  {
    if dims != [] {
      NothingStars(dims[1..]);
    }
  }

  lemma {:induction false} NoPairs(j: JoinSpec, l: Row, right: seq<Row>)
    requires !LeftHasMatch(j, l, right)
    ensures Pairs(j, l, right) == []
  {
    if right != [] {
      assert forall k :: 0 <= k < |right[1..]| ==> right[1..][k] == right[k + 1];
      NoPairs(j, l, right[1..]);
    }
  }

  /** Full rows of a schema that all have one value in a column. */
  ghost predicate Carrying(schema: seq<Field>, name: string, v: Value, rows: seq<Row>) {
    forall k :: 0 <= k < |rows| ==> |rows[k]| == |schema| && Cell(schema, rows[k], name) == v
  }

  /** A join hands a column of its left input on, under another name perhaps. */
  ghost predicate Carries(d: Dimension, name: string, out: seq<Field>, outName: string) {
    forall l: Row, x: Row :: |l| == |d.j.left| && x in Joined(d, l) ==>
      |d.project(x)| == |out| && Cell(out, d.project(x), outName) == Cell(d.j.left, l, name)
  }

  lemma {:induction false} CarriedOn(d: Dimension, name: string, out: seq<Field>, outName: string, v: Value,
                                     rows: seq<Row>)
    requires Carries(d, name, out, outName) && Carrying(d.j.left, name, v, rows)
    ensures Carrying(out, outName, v, JoinedRows(d, rows))
  {
    if rows != [] {
      assert forall k :: 0 <= k < |rows[1..]| ==> rows[1..][k] == rows[k + 1];
      CarriedOn(d, name, out, outName, v, rows[1..]);
      var joined := Joined(d, rows[0]);
      assert JoinedRows(d, rows) == Map(d.project, joined) + JoinedRows(d, rows[1..]) by {
        MapAppend(d.project, joined, ForEach(Joiner(d), rows[1..]));
      }
      assert forall k :: 0 <= k < |joined| ==> joined[k] in joined;
    }
  }

  /**
   * A key pair `i` of the join at `at`, from whose dimension the keys for the probe's `column` were collected;
   * `names` says what the column is called in the left input of each join up to that one.
   */
  datatype Reduction = Reduction(at: nat, i: nat, dim: Table, column: string, key: string, names: seq<string>)

  /** The probe may be reduced by an inner or a semi-join, on one of its own columns. */
  ghost predicate Reduces(base: seq<Field>, dims: seq<Dimension>, r: Reduction) {
    && r.at < |dims| && |r.names| == r.at + 1 && r.names[0] == r.column
    && (dims[r.at].kind == Inner || dims[r.at].kind == Semi)
    && SameShape(dims[0].j.left, base)
    && (forall k :: 0 <= k < r.at ==> Carries(dims[k], r.names[k], dims[k + 1].j.left, r.names[k + 1]))
    && JoinsOn(dims[r.at].j, InLeft, r.i, r.names[r.at], r.key)
    && dims[r.at].rows == r.dim.rows && dims[r.at].j.right == r.dim.schema
    && DistinctKeys(r.dim, r.key).Ok?
  }

  ghost predicate AllReduce(base: seq<Field>, dims: seq<Dimension>, rs: seq<Reduction>) {
    forall k :: 0 <= k < |rs| ==> Reduces(base, dims, rs[k])
  }

  /** The keys collected from a dimension. */
  function KeySetOf(r: Reduction): KeySet {
    KeySet(r.column, if DistinctKeys(r.dim, r.key).Ok? then DistinctKeys(r.dim, r.key).value else Table([], []))
  }

  function KeySets(rs: seq<Reduction>): seq<KeySet> {
    Map(KeySetOf, rs)
  }

  /** A value that is NULL, or none of the keys. */
  predicate Misses(v: Value, keys: Table) {
    v == Null || v !in KeyValues(keys)
  }

  /** Rows whose value misses the keys of a dimension find nothing in it. */
  lemma {:induction false} MissJoinsNothing(d: Dimension, i: nat, dim: Table, name: string, key: string, v: Value,
                                            rows: seq<Row>)
    requires d.kind == Inner || d.kind == Semi
    requires JoinsOn(d.j, InLeft, i, name, key) && d.rows == dim.rows && d.j.right == dim.schema
    requires DistinctKeys(dim, key).Ok? && Misses(v, DistinctKeys(dim, key).value)
    requires Carrying(d.j.left, name, v, rows)
    ensures ForEach(Joiner(d), rows) == []
  {
    if rows != [] {
      assert Cell(d.j.left, rows[0], name) == v;
      if LeftHasMatch(d.j, rows[0], d.rows) {
        JoinableHitsKeys(d.j, InLeft, i, dim, key, name, rows[0]);
        assert false;
      }
      NoPairs(d.j, rows[0], d.rows);
      assert forall k :: 0 <= k < |rows[1..]| ==> rows[1..][k] == rows[k + 1];
      MissJoinsNothing(d, i, dim, name, key, v, rows[1..]);
    }
  }

  /** Rows whose value misses the keys of a dimension never reach the end of the star. */
  lemma {:induction false} MissStarsNothing(dims: seq<Dimension>, at: nat, names: seq<string>, i: nat, dim: Table,
                                            key: string, v: Value, rows: seq<Row>)
    requires at < |dims| && |names| == at + 1 && (dims[at].kind == Inner || dims[at].kind == Semi)
    requires forall k :: 0 <= k < at ==> Carries(dims[k], names[k], dims[k + 1].j.left, names[k + 1])
    requires JoinsOn(dims[at].j, InLeft, i, names[at], key)
    requires dims[at].rows == dim.rows && dims[at].j.right == dim.schema
    requires DistinctKeys(dim, key).Ok? && Misses(v, DistinctKeys(dim, key).value)
    requires Carrying(dims[0].j.left, names[0], v, rows)
    ensures StarRows(dims, rows) == []
    decreases at
  {
    if at == 0 {
      MissJoinsNothing(dims[0], i, dim, names[0], key, v, rows);
      NothingStars(dims[1..]);
    } else {
      CarriedOn(dims[0], names[0], dims[1].j.left, names[1], v, rows);
      assert forall k :: 0 <= k < |dims[1..]| ==> dims[1..][k] == dims[k + 1];
      assert forall k :: 0 <= k < |names[1..]| ==> names[1..][k] == names[k + 1];
      MissStarsNothing(dims[1..], at - 1, names[1..], i, dim, key, v, JoinedRows(dims[0], rows));
    }
  }

  /**
   * One probe reduced by the keys of several of the joins above it at once, whichever key sets the strategy used or
   * skipped and whatever other row-wise joins stand between: all the joins together give the rows of the plain
   * scan's.
   */
  lemma {:induction false} StarInjectionIsExact(w: World, pins: Pins, ds: string, scan: ScanSpec, ndv: Option<nat>,
                                                dims: seq<Dimension>, rs: seq<Reduction>, base: Table)
    requires rs != [] && FetchScan(w, pins, ds, scan, None) == Ok(base)
    requires forall k :: 0 <= k < |base.rows| ==> |base.rows[k]| == |base.schema|
    requires AllReduce(base.schema, dims, rs)
    requires Injectable(w, pins, ds, scan, KeySets(rs)[0].column, KeySets(rs)[0].keys, ndv, KeySets(rs)[1..])
    ensures var ks := KeySets(rs);
            var fetched := RunInjectedScan(w, pins, ds, scan, ks[0].column, ks[0].keys, ndv, ks[1..]);
            fetched.Ok? ==>
              && SameShape(fetched.value.schema, base.schema)
              && multiset(StarRows(dims, fetched.value.rows)) == multiset(StarRows(dims, base.rows))
  {
    var ks := KeySets(rs);
    var fetched := RunInjectedScan(w, pins, ds, scan, ks[0].column, ks[0].keys, ndv, ks[1..]);
    if fetched.Ok? {
      StrategySandwich(w, pins, ds, scan, ks[0].column, ks[0].keys, ndv, ks[1..]);
      FirstAndRest(ks);
      StarOfSandwiched(dims, rs, base, fetched.value);
    }
  }

  lemma {:induction false} FirstAndRest(ks: seq<KeySet>)
    requires ks != []
    ensures [KeySet(ks[0].column, ks[0].keys)] + ks[1..] == ks
  {
  }

  lemma {:induction false} StarOfSandwiched(dims: seq<Dimension>, rs: seq<Reduction>, base: Table, fetched: Table)
    requires forall k :: 0 <= k < |base.rows| ==> |base.rows[k]| == |base.schema|
    requires AllReduce(base.schema, dims, rs)
    requires Sandwiched(base, fetched, KeySets(rs))
    ensures multiset(StarRows(dims, fetched.rows)) == multiset(StarRows(dims, base.rows))
  {
    var keep := Hitter(base.schema, KeySets(rs));
    MissedRowsStarNothing(dims, rs, base, base.rows);
    MissedRowsStarNothing(dims, rs, base, fetched.rows);
    FilterBetween(keep, base.rows, fetched.rows);
    SumPermutes(StarOf(dims), Filter(keep, fetched.rows), Filter(keep, base.rows));
  }

  lemma {:induction false} MissedRow(base: seq<Field>, dims: seq<Dimension>, rs: seq<Reduction>, p: Row)
    requires AllReduce(base, dims, rs) && |p| == |base| && !Hitter(base, KeySets(rs))(p)
    ensures StarOf(dims)(p) == multiset{}
  {
    var miss :| 0 <= miss < |rs| && !Hits(base, p, KeySets(rs)[miss]);
    MissesOne(base, dims, rs[miss], p);
  }

  lemma {:induction false} MissesOne(base: seq<Field>, dims: seq<Dimension>, r: Reduction, p: Row)
    requires Reduces(base, dims, r) && |p| == |base| && !Hits(base, p, KeySetOf(r))
    ensures StarRows(dims, [p]) == []
  {
    ShapeIndex(dims[0].j.left, base, r.column);
    MissStarsNothing(dims, r.at, r.names, r.i, r.dim, r.key, Cell(base, p, r.column), [p]);
  }

  /** Only the rows every key set can join reach the end of the star. */
  lemma {:induction false} MissedRowsStarNothing(dims: seq<Dimension>, rs: seq<Reduction>, base: Table, rows: seq<Row>)
    requires forall k :: 0 <= k < |base.rows| ==> |base.rows[k]| == |base.schema|
    requires AllReduce(base.schema, dims, rs)
    requires multiset(rows) <= multiset(base.rows)
    ensures multiset(StarRows(dims, rows)) == Sum(StarOf(dims), Filter(Hitter(base.schema, KeySets(rs)), rows))
  {
    var keep := Hitter(base.schema, KeySets(rs));
    var f := StarOf(dims);
    forall k | 0 <= k < |rows| && !keep(rows[k]) ensures f(rows[k]) == multiset{} {
      assert rows[k] in multiset(rows);
      assert rows[k] in multiset(base.rows);
      MissedRow(base.schema, dims, rs, rows[k]);
    }
    SumFilter(f, keep, rows);
    StarIsSum(dims, rows);
  }
}
