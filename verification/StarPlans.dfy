/**
 * Whole star plans: keys collected from several dimensions, one probe read reduced by all of them, a chain of joins.
 */
module StarPlans {
  import opened Outcomes
  import opened Ir
  import opened Relations
  import opened Sources
  import opened Typing
  import opened Injection
  import opened InjectionProofs
  import opened Joins
  import opened Keys
  import opened PlanExactness
  import opened ParallelRead
  import PR = PlanRewrites
  import B = Bindings
  import R = Reference

  /** One join of the chain: its fragment, the dimension's name, and the name and the columns of what it gives. */
  datatype Link = Link(fragment: string, dim: string, out: string, columns: seq<Field>)

  /** One dimension whose keys reduce the probe: where they are collected from, and under which name. */
  datatype Arm = Arm(r: Reduction, input: string, cap: nat, keys: string)

  function Chained(links: seq<Link>, probed: string): seq<Step> {
    if links == [] then [Return(probed)]
    else
      [Merge(links[0].fragment, PR.MergeInputs(InLeft, links[0].dim, probed), links[0].out)] +
        Chained(links[1..], links[0].out)
  }

  function Collects(arms: seq<Arm>): seq<Step> {
    Map((a: Arm) => CollectDistinct(a.input, a.r.key, a.cap, a.keys), arms)
  }

  function Extras(arms: seq<Arm>): seq<ExtraInjection> {
    Map((a: Arm) => ExtraInjection(a.r.column, a.keys), arms)
  }

  function Reductions(arms: seq<Arm>): seq<Reduction> {
    Map((a: Arm) => a.r, arms)
  }

  function InjectedRead(ds: string, scan: ScanSpec, ndv: Option<nat>, arms: seq<Arm>, probed: string): Step
    requires arms != []
  {
    InjectedScan(ds, scan, arms[0].r.column, arms[0].keys, probed, ndv, Extras(arms[1..]))
  }

  /** Collect every dimension's keys, read the probe reduced by them, join the chain and return. */
  function ReducedStar(ds: string, scan: ScanSpec, ndv: Option<nat>, arms: seq<Arm>, links: seq<Link>,
                       probed: string): seq<Step>
    requires arms != []
  {
    Collects(arms) + ([InjectedRead(ds, scan, ndv, arms, probed)] + Chained(links, probed))
  }

  /** Read the probe plainly, join the same chain and return. */
  function PlainStar(ds: string, scan: ScanSpec, links: seq<Link>, probed: string): seq<Step> {
    [SourceScan(ds, scan, probed)] + Chained(links, probed)
  }

  // --- the chain ------------------------------------------------------------------------------------------

  /** The dimensions held beside the probe. */
  ghost predicate Bound(env: R.Env, tables: map<string, Table>) {
    forall n :: n in tables ==> n in env && env[n] == B.Rel(tables[n])
  }

  /** Every link's fragment is a hash join and its dimension is held, and no result takes a dimension's name. */
  ghost predicate Linked(fragments: map<string, Fragment>, links: seq<Link>, tables: map<string, Table>) {
    forall k :: 0 <= k < |links| ==>
      && links[k].fragment in fragments && fragments[links[k].fragment].HashJoin?
      && links[k].dim in tables && links[k].out !in tables
  }

  /** What the evaluator makes of a chain of joins over a probe. */
  ghost function ChainOut(w: World, fragments: map<string, Fragment>, links: seq<Link>, tables: map<string, Table>,
                          probe: Table): Table
    requires Linked(fragments, links, tables)
  {
    if links == [] then probe
    else
      assert Linked(fragments, links[1..], tables);
      ChainOut(w, fragments, links[1..], tables,
        w.eval(fragments[links[0].fragment], PR.Inputs(probe, tables[links[0].dim])))
  }

  /** A chain always runs to its end. */
  lemma {:induction false} ChainRuns(e: R.Engine, fragments: map<string, Fragment>, links: seq<Link>,
                                     tables: map<string, Table>, probed: string, st: R.State, probe: Table)
    requires Linked(fragments, links, tables) && Bound(st.env, tables)
    requires probed in st.env && st.env[probed] == B.Rel(probe)
    ensures R.Run(e, fragments, Chained(links, probed), st) == Ok(ChainOut(e.world, fragments, links, tables, probe))
  {
    if links != [] {
      var link := links[0];
      var n := PR.Names(link.dim, "", probed, link.fragment, link.out);
      PR.JoinApplies(e, fragments, n, InLeft, st, tables[link.dim], probe);
      var joined := e.world.eval(fragments[link.fragment], PR.Inputs(probe, tables[link.dim]));
      var next := st.(env := st.env[link.out := B.Rel(joined)]);
      PR.RunsOn(e, fragments, Merge(link.fragment, PR.MergeInputs(InLeft, link.dim, probed), link.out),
                Chained(links[1..], link.out), st);
      assert Linked(fragments, links[1..], tables) && Bound(next.env, tables);
      ChainRuns(e, fragments, links[1..], tables, link.out, next, joined);
    }
  }

  // --- the keys -------------------------------------------------------------------------------------------

  /** An arm's keys are those of a held dimension, under a name of their own. */
  ghost predicate Armed(arms: seq<Arm>, tables: map<string, Table>) {
    && (forall k :: 0 <= k < |arms| ==>
          && arms[k].input in tables && tables[arms[k].input] == arms[k].r.dim && arms[k].keys !in tables
          && DistinctKeys(arms[k].r.dim, arms[k].r.key).Ok?)
    && (forall k, m :: 0 <= k < m < |arms| ==> arms[k].keys != arms[m].keys)
  }

  ghost predicate KeysHeld(env: R.Env, arms: seq<Arm>) {
    forall k :: 0 <= k < |arms| ==> arms[k].keys in env && env[arms[k].keys] == B.KeySetOf(KeySetOf(arms[k].r).keys)
  }

  function Held(env: R.Env, arms: seq<Arm>): R.Env
    decreases |arms|
  {
    if arms == [] then env else Held(env[arms[0].keys := B.KeySetOf(KeySetOf(arms[0].r).keys)], arms[1..])
  }

  lemma {:induction false} HeldKeeps(env: R.Env, arms: seq<Arm>, n: string)
    requires forall k :: 0 <= k < |arms| ==> arms[k].keys != n
    ensures (n in Held(env, arms) <==> n in env) && (n in env ==> Held(env, arms)[n] == env[n])
    decreases |arms|
  {
    if arms != [] {
      assert forall k :: 0 <= k < |arms[1..]| ==> arms[1..][k] == arms[k + 1];
      HeldKeeps(env[arms[0].keys := B.KeySetOf(KeySetOf(arms[0].r).keys)], arms[1..], n);
    }
  }

  lemma {:induction false} HeldAt(env: R.Env, arms: seq<Arm>, k: nat)
    requires k < |arms| && forall m :: k < m < |arms| ==> arms[k].keys != arms[m].keys
    ensures arms[k].keys in Held(env, arms) && Held(env, arms)[arms[k].keys] == B.KeySetOf(KeySetOf(arms[k].r).keys)
    decreases |arms|
  {
    var next := env[arms[0].keys := B.KeySetOf(KeySetOf(arms[0].r).keys)];
    assert forall m :: 0 <= m < |arms[1..]| ==> arms[1..][m] == arms[m + 1];
    if k == 0 {
      HeldKeeps(next, arms[1..], arms[0].keys);
    } else {
      HeldAt(next, arms[1..], k - 1);
    }
  }

  /** The key collections run, and hold every arm's keys beside what was held. */
  lemma {:induction false} CollectsRun(e: R.Engine, fragments: map<string, Fragment>, arms: seq<Arm>,
                                       tables: map<string, Table>, rest: seq<Step>, st: R.State)
    requires Armed(arms, tables) && Bound(st.env, tables)
    ensures R.Run(e, fragments, Collects(arms) + rest, st) == R.Run(e, fragments, rest, st.(env := Held(st.env, arms)))
  {
    if arms == [] {
      assert Collects(arms) + rest == rest;
    } else {
      var next := st.(env := st.env[arms[0].keys := B.KeySetOf(KeySetOf(arms[0].r).keys)]);
      var collect := CollectDistinct(arms[0].input, arms[0].r.key, arms[0].cap, arms[0].keys);
      CollectsHead(arms, rest);
      PR.RunsOn(e, fragments, collect, Collects(arms[1..]) + rest, st);
      assert R.ApplyStep(e, fragments, collect, st) == Ok(next);
      FewerArms(arms, tables);
      assert Bound(next.env, tables);
      CollectsRun(e, fragments, arms[1..], tables, rest, next);
    }
  }

  lemma {:induction false} CollectsHead(arms: seq<Arm>, rest: seq<Step>)
    requires arms != []
    ensures Collects(arms) + rest ==
              [CollectDistinct(arms[0].input, arms[0].r.key, arms[0].cap, arms[0].keys)] + (Collects(arms[1..]) + rest)
  {
  }

  lemma {:induction false} FewerArms(arms: seq<Arm>, tables: map<string, Table>)
    requires arms != [] && Armed(arms, tables)
    ensures Armed(arms[1..], tables)
  {
    assert forall k :: 0 <= k < |arms[1..]| ==> arms[1..][k] == arms[k + 1];
  }

  lemma {:induction false} CollectsHold(env: R.Env, arms: seq<Arm>, tables: map<string, Table>)
    requires Armed(arms, tables) && Bound(env, tables)
    ensures Bound(Held(env, arms), tables) && KeysHeld(Held(env, arms), arms)
  {
    forall n | n in tables ensures n in Held(env, arms) && Held(env, arms)[n] == B.Rel(tables[n]) {
      HeldKeeps(env, arms, n);
    }
    forall k | 0 <= k < |arms|
      ensures arms[k].keys in Held(env, arms) && Held(env, arms)[arms[k].keys] == B.KeySetOf(KeySetOf(arms[k].r).keys)
    {
      HeldAt(env, arms, k);
    }
  }

  /** The extra key bindings read back as the key sets of their arms. */
  lemma {:induction false} ExtrasRead(env: R.Env, arms: seq<Arm>)
    requires KeysHeld(env, arms)
    ensures R.ReadExtras(env, Extras(arms)) == Ok(KeySets(Reductions(arms)))
  {
    if arms != [] {
      var init := arms[..|arms| - 1];
      ExtrasEnd(arms);
      assert KeysHeld(env, init);
      ExtrasRead(env, init);
    }
  }

  lemma {:induction false} ExtrasEnd(arms: seq<Arm>)
    requires arms != []
    ensures var init, last := arms[..|arms| - 1], arms[|arms| - 1];
            && Extras(arms) == Extras(init) + [ExtraInjection(last.r.column, last.keys)]
            && KeySets(Reductions(arms)) == KeySets(Reductions(init)) + [KeySetOf(last.r)]
  {
  }

  /** The injected step reads the probe under the keys of all arms. */
  lemma {:induction false} InjectedReads(e: R.Engine, fragments: map<string, Fragment>, ds: string, scan: ScanSpec,
                                         ndv: Option<nat>, arms: seq<Arm>, probed: string, st: R.State)
    requires arms != [] && KeysHeld(st.env, arms)
    ensures var keys := KeySetOf(arms[0].r).keys;
            R.ApplyStep(e, fragments, InjectedRead(ds, scan, ndv, arms, probed), st) ==
              (match e.deliver(st.pins, ds, scan, arms[0].r.column, keys, ndv,
                InList(arms[0].r.column, KeyValues(keys)),
                               ExtraFilters(KeySets(Reductions(arms[1..]))))
               case Ok(t) => Ok(st.(env := st.env[probed := B.Rel(t)]))
               case Err(error) => Err(error))
  {
    LaterKeysHeld(st.env, arms);
    ExtrasRead(st.env, arms[1..]);
  }

  lemma {:induction false} LaterKeysHeld(env: R.Env, arms: seq<Arm>)
    requires arms != [] && KeysHeld(env, arms)
    ensures KeysHeld(env, arms[1..])
  {
    assert forall k :: 0 <= k < |arms[1..]| ==> arms[1..][k] == arms[k + 1];
  }

  // --- what the evaluator makes of a chain ------------------------------------------------------------------

  /** The columns a hash join puts before its projection. */
  function JoinSchema(kind: JoinKind, j: JoinSpec): seq<Field> {
    if kind == Semi || kind == Anti then j.left else j.left + j.right
  }

  /** One output row of a projection. */
  function ProjectedRow(w: World, project: seq<Projection>, schema: seq<Field>, row: Row): Row {
    Map((p: Projection) => w.scalar(p.expr, schema, row), project)
  }

  /** The rows of a join, in some order, each projected. */
  ghost predicate ProjectionOf(project: Row -> Row, joined: multiset<Row>, out: seq<Row>) {
    exists rows: seq<Row> :: multiset(rows) == joined && multiset(Map(project, rows)) == multiset(out)
  }

  /** A dimension is what a link's fragment says: its kind, its keys, the held rows, and its projection row by row. */
  ghost predicate DimensionOf(w: World, fragment: Fragment, dim: Table, d: Dimension) {
    && fragment.HashJoin? && RowWise(fragment.joinType)
    && d.kind == fragment.joinType && d.j.leftKeys == fragment.leftKeys && d.j.rightKeys == fragment.rightKeys
    && d.j.right == dim.schema && d.rows == dim.rows
    && forall x :: d.project(x) == ProjectedRow(w, fragment.project, JoinSchema(d.kind, d.j), x)
  }

  /**
   * The evaluator computes one link: the projected rows of the join, whatever the scales of the left input's
   * decimals.
   */
  ghost predicate EvaluatesLink(w: World, fragment: Fragment, dim: Table, d: Dimension, out: seq<Field>) {
    forall l: Table :: SameShape(l.schema, d.j.left) ==>
      var o := w.eval(fragment, PR.Inputs(l, dim));
      SameShape(o.schema, out) && ProjectionOf(d.project, Join(d.kind, d.j, l.rows, d.rows), o.rows)
  }

  /**
   * Link by link, the dimensions are the fragments', the evaluator computes them, and each starts from the last's
   * columns.
   */
  ghost predicate Tied(w: World, fragments: map<string, Fragment>, links: seq<Link>, tables: map<string, Table>,
                       dims: seq<Dimension>)
    requires Linked(fragments, links, tables)
  {
    && |dims| == |links|
    && (forall k :: 0 <= k < |links| ==>
         LinkTied(w, fragments[links[k].fragment], tables[links[k].dim], links[k], dims[k]))
    && (forall k :: 0 < k < |links| ==> dims[k].j.left == links[k - 1].columns)
  }

  ghost predicate LinkTied(w: World, fragment: Fragment, dim: Table, link: Link, d: Dimension) {
    && DimensionOf(w, fragment, dim, d) && EvaluatesLink(w, fragment, dim, d, link.columns)
    && |link.columns| == |fragment.project|
  }

  lemma {:induction false} MapIsSum(f: Row -> Row, rows: seq<Row>)
    ensures multiset(Map(f, rows)) == Sum((x: Row) => multiset{f(x)}, rows)
  {
    if rows != [] {
      MapIsSum(f, rows[1..]);
      assert Map(f, rows) == [f(rows[0])] + Map(f, rows[1..]);
    }
  }

  lemma {:induction false} MapPermutes(f: Row -> Row, a: seq<Row>, b: seq<Row>)
    requires multiset(a) == multiset(b)
    ensures multiset(Map(f, a)) == multiset(Map(f, b))
  {
    MapIsSum(f, a);
    MapIsSum(f, b);
    SumPermutes((x: Row) => multiset{f(x)}, a, b);
  }

  /** What the evaluator makes of one link is the row-wise join, in some order. */
  lemma {:induction false} LinkIsJoin(d: Dimension, left: seq<Row>, out: seq<Row>)
    requires RowWise(d.kind) && ProjectionOf(d.project, Join(d.kind, d.j, left, d.rows), out)
    ensures multiset(out) == multiset(JoinedRows(d, left))
  {
    var rows: seq<Row> :| multiset(rows) == Join(d.kind, d.j, left, d.rows)
      && multiset(Map(d.project, rows)) == multiset(out);
    JoinedRowsIsJoin(d, left);
    MapPermutes(d.project, rows, ForEach(Joiner(d), left));
  }

  /** So what it makes of the chain is the star over its probe, whatever order its rows come in. */
  lemma {:induction false} ChainIsStar(w: World, fragments: map<string, Fragment>, links: seq<Link>,
                                       tables: map<string, Table>, dims: seq<Dimension>, probe: Table)
    requires Linked(fragments, links, tables) && Tied(w, fragments, links, tables, dims)
    requires links != [] ==> SameShape(probe.schema, dims[0].j.left)
    ensures multiset(ChainOut(w, fragments, links, tables, probe).rows) == multiset(StarRows(dims, probe.rows))
  {
    if links != [] {
      var fragment, dim := fragments[links[0].fragment], tables[links[0].dim];
      var o := w.eval(fragment, PR.Inputs(probe, dim));
      assert LinkTied(w, fragment, dim, links[0], dims[0]);
      LinkIsJoin(dims[0], probe.rows, o.rows);
      TiedRest(w, fragments, links, tables, dims);
      ChainIsStar(w, fragments, links[1..], tables, dims[1..], o);
      StarPermutes(dims[1..], o.rows, JoinedRows(dims[0], probe.rows));
    }
  }

  lemma {:induction false} TiedRest(w: World, fragments: map<string, Fragment>, links: seq<Link>,
                                    tables: map<string, Table>, dims: seq<Dimension>)
    requires Linked(fragments, links, tables) && Tied(w, fragments, links, tables, dims) && links != []
    ensures Linked(fragments, links[1..], tables) && Tied(w, fragments, links[1..], tables, dims[1..])
  {
    assert forall k :: 0 <= k < |links[1..]| ==> links[1..][k] == links[k + 1] && dims[1..][k] == dims[k + 1];
  }

  /** A projection item of a link's fragment hands on a column of the left input. */
  ghost predicate Passes(w: World, fragment: Fragment, d: Dimension, name: string, out: seq<Field>, outName: string) {
    && fragment.HashJoin? && |out| == |fragment.project|
    && IndexOf(d.j.left, name).Some? && IndexOf(out, outName).Some?
    && forall x: Row :: w.scalar(fragment.project[IndexOf(out, outName).value].expr, JoinSchema(d.kind, d.j), x) ==
                          Cell(JoinSchema(d.kind, d.j), x, name)
  }

  /** The rows a row is joined to extend it, or are it. */
  lemma {:induction false} JoinedExtends(d: Dimension, l: Row, x: Row)
    requires x in Joined(d, l)
    ensures l <= x && (d.kind == Semi || d.kind == Anti ==> x == l)
  {
    PairsExtend(d.j, l, d.rows);
  }

  lemma {:induction false} PairsExtend(j: JoinSpec, l: Row, right: seq<Row>)
    ensures forall x :: x in Pairs(j, l, right) ==> l <= x
  {
    if right != [] {
      PairsExtend(j, l, right[1..]);
    }
  }

  lemma {:induction false} LeftColumn(left: seq<Field>, right: seq<Field>, name: string)
    requires IndexOf(left, name).Some?
    ensures IndexOf(left + right, name) == IndexOf(left, name)
  {
    assert (left + right)[0] == left[0];
    if left[0].name != name {
      assert (left + right)[1..] == left[1..] + right;
      LeftColumn(left[1..], right, name);
    }
  }

  /** A link that passes a column carries it. */
  lemma {:induction false} PassedIsCarried(w: World, fragment: Fragment, dim: Table, d: Dimension, name: string,
                                           out: seq<Field>, outName: string)
    requires DimensionOf(w, fragment, dim, d) && Passes(w, fragment, d, name, out, outName)
    ensures Carries(d, name, out, outName)
  {
    forall l: Row, x: Row | |l| == |d.j.left| && x in Joined(d, l)
      ensures |d.project(x)| == |out| && Cell(out, d.project(x), outName) == Cell(d.j.left, l, name)
    {
      JoinedExtends(d, l, x);
      if d.kind != Semi && d.kind != Anti {
        LeftColumn(d.j.left, d.j.right, name);
      }
      assert Cell(JoinSchema(d.kind, d.j), x, name) == Cell(d.j.left, l, name);
    }
  }

  // --- the two plans ----------------------------------------------------------------------------------------

  /** What the injected read must be to the plain one. */
  ghost predicate StarAlike(e: R.Engine, pins: Pins, ds: string, scan: ScanSpec, ndv: Option<nat>, arms: seq<Arm>,
                            dims: seq<Dimension>)
    requires arms != [] && dims != []
  {
    var keys := KeySetOf(arms[0].r).keys;
    var x := e.deliver(pins, ds, scan, arms[0].r.column, keys, ndv, InList(arms[0].r.column, KeyValues(keys)),
                       ExtraFilters(KeySets(Reductions(arms[1..]))));
    var y := e.fetch(pins, ds, scan);
    x.Ok? ==>
      && y.Ok? && SameShape(x.value.schema, dims[0].j.left) && SameShape(y.value.schema, dims[0].j.left)
      && multiset(StarRows(dims, x.value.rows)) == multiset(StarRows(dims, y.value.rows))
  }

  /** Wherever the two reads lead to the same joined rows, the two plans return the same rows. */
  lemma {:induction false} SameStars(e: R.Engine, fragments: map<string, Fragment>, ds: string, scan: ScanSpec,
                                     ndv: Option<nat>, arms: seq<Arm>, links: seq<Link>, probed: string,
                                     tables: map<string, Table>, dims: seq<Dimension>, st: R.State)
    requires arms != [] && Armed(arms, tables) && Linked(fragments, links, tables) && probed !in tables
    requires Bound(st.env, tables) && dims != [] && Tied(e.world, fragments, links, tables, dims)
    requires StarAlike(e, st.pins, ds, scan, ndv, arms, dims)
    ensures PR.SameRuns(e, fragments, ReducedStar(ds, scan, ndv, arms, links, probed),
                        PlainStar(ds, scan, links, probed), st)
  {
    var step, chain := InjectedRead(ds, scan, ndv, arms, probed), Chained(links, probed);
    var after := st.(env := Held(st.env, arms));
    CollectsRun(e, fragments, arms, tables, [step] + chain, st);
    CollectsHold(st.env, arms, tables);
    PR.RunsOn(e, fragments, step, chain, after);
    InjectedReads(e, fragments, ds, scan, ndv, arms, probed, after);
    PR.RunsOn(e, fragments, SourceScan(ds, scan, probed), chain, st);
    var read := R.ApplyStep(e, fragments, step, after);
    if read.Ok? {
      var plain := R.ApplyStep(e, fragments, SourceScan(ds, scan, probed), st);
      var x, y := read.value.env[probed].t, plain.value.env[probed].t;
      ChainRuns(e, fragments, links, tables, probed, read.value, x);
      ChainRuns(e, fragments, links, tables, probed, plain.value, y);
      ChainIsStar(e.world, fragments, links, tables, dims, x);
      ChainIsStar(e.world, fragments, links, tables, dims, y);
    }
  }

  /** An arm reduces the probe by the keys of an inner or a semi-join above it; the links before pass its column on. */
  ghost predicate ArmReduces(w: World, fragments: map<string, Fragment>, links: seq<Link>, base: seq<Field>,
                             dims: seq<Dimension>, r: Reduction)
  {
    && r.at < |dims| == |links| && |r.names| == r.at + 1 && r.names[0] == r.column
    && (dims[r.at].kind == Inner || dims[r.at].kind == Semi)
    && SameShape(dims[0].j.left, base)
    && (forall k :: 0 <= k < r.at ==>
          && links[k].fragment in fragments
          && Passes(w, fragments[links[k].fragment], dims[k], r.names[k], links[k].columns, r.names[k + 1]))
    && JoinsOn(dims[r.at].j, InLeft, r.i, r.names[r.at], r.key)
    && dims[r.at].rows == r.dim.rows && dims[r.at].j.right == r.dim.schema
    && DistinctKeys(r.dim, r.key).Ok?
  }

  lemma {:induction false} ArmIsReduction(w: World, fragments: map<string, Fragment>, links: seq<Link>,
                                          tables: map<string, Table>, base: seq<Field>, dims: seq<Dimension>,
                                          r: Reduction)
    requires Linked(fragments, links, tables) && Tied(w, fragments, links, tables, dims)
    requires ArmReduces(w, fragments, links, base, dims, r)
    ensures Reduces(base, dims, r)
  {
    forall k | 0 <= k < r.at ensures Carries(dims[k], r.names[k], dims[k + 1].j.left, r.names[k + 1]) {
      assert LinkTied(w, fragments[links[k].fragment], tables[links[k].dim], links[k], dims[k]);
      PassedIsCarried(w, fragments[links[k].fragment], tables[links[k].dim], dims[k], r.names[k], links[k].columns,
                      r.names[k + 1]);
    }
  }

  /** What the rewrite assumes of the probe's reads: full rows, and arms that reduce the joins above it. */
  ghost predicate Star(w: World, pins: Pins, fragments: map<string, Fragment>, ds: string, scan: ScanSpec,
                       ndv: Option<nat>, arms: seq<Arm>, links: seq<Link>, dims: seq<Dimension>)
    requires arms != []
  {
    && Injectable(w, pins, ds, scan, arms[0].r.column, KeySetOf(arms[0].r).keys, ndv, KeySets(Reductions(arms[1..])))
    && MarkAccepted(w, ds, scan) && MarkFits(scan, FetchTuples(w, pins, ds, scan, None))
    && (FetchScan(w, pins, ds, scan, None).Ok? ==>
          Reduced(w, fragments, links, FetchScan(w, pins, ds, scan, None).value, arms, dims))
  }

  ghost predicate Reduced(w: World, fragments: map<string, Fragment>, links: seq<Link>, base: Table, arms: seq<Arm>,
                          dims: seq<Dimension>) {
    && (forall k :: 0 <= k < |base.rows| ==> |base.rows[k]| == |base.schema|)
    && forall k :: 0 <= k < |arms| ==> ArmReduces(w, fragments, links, base.schema, dims, arms[k].r)
  }

  lemma {:induction false} HeadAndTail(arms: seq<Arm>)
    requires arms != []
    ensures KeySets(Reductions(arms)) != [] && KeySets(Reductions(arms))[0] == KeySetOf(arms[0].r)
    ensures KeySets(Reductions(arms))[1..] == KeySets(Reductions(arms[1..]))
  {
  }

  lemma {:induction false} AllArmsReduce(w: World, fragments: map<string, Fragment>, links: seq<Link>,
                                         tables: map<string, Table>, base: Table, arms: seq<Arm>, dims: seq<Dimension>)
    requires Linked(fragments, links, tables) && Tied(w, fragments, links, tables, dims)
    requires Reduced(w, fragments, links, base, arms, dims)
    ensures AllReduce(base.schema, dims, Reductions(arms))
  {
    forall k | 0 <= k < |arms| ensures Reduces(base.schema, dims, Reductions(arms)[k]) {
      ArmIsReduction(w, fragments, links, tables, base.schema, dims, arms[k].r);
    }
  }

  lemma {:induction false} ShapesAgree(a: seq<Field>, b: seq<Field>, c: seq<Field>)
    requires SameShape(a, b) && SameShape(c, b)
    ensures SameShape(a, c)
  {
  }

  /** The connectors' reads of the probe lead to the same joined rows. */
  lemma {:induction false} StarReadsAgree(w: World, pins: Pins, fragments: map<string, Fragment>, ds: string,
                                          scan: ScanSpec, ndv: Option<nat>, arms: seq<Arm>, links: seq<Link>,
                                          tables: map<string, Table>, dims: seq<Dimension>)
    requires Linked(fragments, links, tables) && Tied(w, fragments, links, tables, dims) && dims != []
    requires arms != [] && Star(w, pins, fragments, ds, scan, ndv, arms, links, dims)
    ensures var keys, others := KeySetOf(arms[0].r), KeySets(Reductions(arms[1..]));
            var x := RunInjectedScan(w, pins, ds, scan, keys.column, keys.keys, ndv, others);
            var y := FetchSource(w, pins, ds, scan);
            x.Ok? ==>
              && y.Ok? && SameShape(x.value.schema, dims[0].j.left) && SameShape(y.value.schema, dims[0].j.left)
              && multiset(StarRows(dims, x.value.rows)) == multiset(StarRows(dims, y.value.rows))
  {
    var keys, others := KeySetOf(arms[0].r), KeySets(Reductions(arms[1..]));
    var x := RunInjectedScan(w, pins, ds, scan, keys.column, keys.keys, ndv, others);
    StrategySandwich(w, pins, ds, scan, keys.column, keys.keys, ndv, others);
    if x.Ok? {
      var base := FetchScan(w, pins, ds, scan, None).value;
      HeadAndTail(arms);
      AllArmsReduce(w, fragments, links, tables, base, arms, dims);
      StarInjectionIsExact(w, pins, ds, scan, ndv, dims, Reductions(arms), base);
      MarkedReadIsPlain(w, pins, ds, scan);
      assert SameShape(dims[0].j.left, base.schema);
      ShapesAgree(x.value.schema, base.schema, dims[0].j.left);
      ShapesAgree(FetchSource(w, pins, ds, scan).value.schema, base.schema, dims[0].j.left);
    }
  }

  /** Dropped namesakes change nothing that the evaluator computes. */
  lemma {:induction false} TiedNow(w: World, pins: Pins, fragments: map<string, Fragment>, links: seq<Link>,
                                   tables: map<string, Table>, dims: seq<Dimension>)
    requires Linked(fragments, links, tables) && Tied(w, fragments, links, tables, dims)
    ensures Tied(Now(w, pins), fragments, links, tables, dims)
  {
    forall k | 0 <= k < |links|
      ensures LinkTied(Now(w, pins), fragments[links[k].fragment], tables[links[k].dim], links[k], dims[k])
    {
      assert LinkTied(w, fragments[links[k].fragment], tables[links[k].dim], links[k], dims[k]);
      LinkTiedNow(w, pins, fragments[links[k].fragment], tables[links[k].dim], links[k], dims[k]);
    }
  }

  lemma {:induction false} LinkTiedNow(w: World, pins: Pins, fragment: Fragment, dim: Table, link: Link, d: Dimension)
    requires LinkTied(w, fragment, dim, link, d)
    ensures LinkTied(Now(w, pins), fragment, dim, link, d)
  {
    var now := Now(w, pins);
    forall x ensures d.project(x) == ProjectedRow(now, fragment.project, JoinSchema(d.kind, d.j), x) {
      assert d.project(x) == ProjectedRow(w, fragment.project, JoinSchema(d.kind, d.j), x);
    }
    forall l: Table | SameShape(l.schema, d.j.left)
      ensures SameShape(now.eval(fragment, PR.Inputs(l, dim)).schema, link.columns)
      ensures ProjectionOf(d.project, Join(d.kind, d.j, l.rows, d.rows), now.eval(fragment, PR.Inputs(l, dim)).rows)
    {
      assert now.eval(fragment, PR.Inputs(l, dim)) == w.eval(fragment, PR.Inputs(l, dim));
    }
  }

  /**
   * The planner's rewrite of a star, on whole plans: whenever collecting the keys of several dimensions, reading the
   * probe reduced by all of them at once, joining the chain and returning succeeds, so does reading the probe
   * plainly, joining the same chain and returning, with the same rows, whichever key sets the delivery used or
   * skipped. Of the evaluator it assumes, link by link, that a hash join gives its projected join rows.
   */
  lemma {:induction false} StarPlanIsPlainPlan(w: World, fragments: map<string, Fragment>, ds: string, scan: ScanSpec,
                                               ndv: Option<nat>, arms: seq<Arm>, links: seq<Link>, probed: string,
                                               tables: map<string, Table>, dims: seq<Dimension>, st: R.State)
    requires arms != [] && Armed(arms, tables) && Linked(fragments, links, tables) && probed !in tables
    requires Bound(st.env, tables) && dims != []
    ensures Tied(w, fragments, links, tables, dims)
              && Star(Now(w, st.pins), st.pins, fragments, ds, scan, ndv, arms, links, dims) ==>
              PR.SameRuns(R.EngineOf(w), fragments, ReducedStar(ds, scan, ndv, arms, links, probed),
                          PlainStar(ds, scan, links, probed), st)
  {
    if Tied(w, fragments, links, tables, dims)
      && Star(Now(w, st.pins), st.pins, fragments, ds, scan, ndv, arms, links, dims) {
      TiedNow(w, st.pins, fragments, links, tables, dims);
      StarReadsAgree(Now(w, st.pins), st.pins, fragments, ds, scan, ndv, arms, links, tables, dims);
      SameStars(R.EngineOf(w), fragments, ds, scan, ndv, arms, links, probed, tables, dims, st);
    }
  }
}
