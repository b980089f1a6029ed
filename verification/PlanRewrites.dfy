/** Whole plans: reading the probe reduced by collected keys, or reading it plainly, ends in the same join. */
module PlanRewrites {
  import opened Outcomes
  import opened Ir
  import opened Relations
  import opened Sources
  import opened Typing
  import opened Injection
  import opened InjectionProofs
  import opened Joins
  import opened Keys
  import opened PlanExactness
  import opened ParallelRead
  import opened Deliveries
  import B = Bindings
  import R = Reference

  function SpecOf(fragment: Fragment, left: Table, right: Table): JoinSpec
    requires fragment.HashJoin?
  {
    JoinSpec(left.schema, right.schema, fragment.leftKeys, fragment.rightKeys)
  }

  /** A hash join's input tables, in the order of its input map. */
  function Inputs(left: Table, right: Table): seq<(string, Table)> {
    [("in_left", left), ("in_right", right)]
  }

  function JoinOf(fragment: Fragment, left: Table, right: Table): multiset<Row>
    requires fragment.HashJoin?
  {
    Join(fragment.joinType, SpecOf(fragment, left, right), left.rows, right.rows)
  }

  function Sided(probe: Side, build: Table, probed: Table): (Table, Table) {
    if probe == InLeft then (probed, build) else (build, probed)
  }

  function RowsOut(w: World, fragment: Fragment, sides: (Table, Table)): multiset<Row> {
    multiset(w.eval(fragment, Inputs(sides.0, sides.1)).rows)
  }

  /** The evaluator computes a hash join from its join rows, whatever the scales of its decimals. */
  ghost predicate EvaluatesJoins(w: World, fragment: Fragment)
    requires fragment.HashJoin?
  {
    forall a: (Table, Table), b: (Table, Table) ::
      && SameShape(a.0.schema, b.0.schema) && SameShape(a.1.schema, b.1.schema)
      && JoinOf(fragment, a.0, a.1) == JoinOf(fragment, b.0, b.1) ==>
        RowsOut(w, fragment, a) == RowsOut(w, fragment, b)
  }

  function MergeInputs(probe: Side, build: string, probed: string): seq<MergeInput> {
    if probe == InLeft then [MergeInput("in_left", probed), MergeInput("in_right", build)]
    else [MergeInput("in_left", build), MergeInput("in_right", probed)]
  }

  /** The names a rewritten plan uses. */
  datatype Names = Names(build: string, keys: string, probed: string, fragment: string, joined: string)

  predicate Apart(n: Names) {
    n.keys != n.build && n.probed != n.build
  }

  // --- steps that leave some names alone -------------------------------------------------------------------

  function Writes(step: Step): set<string> {
    match step
    case SourceScan(_, _, binding) => {binding}
    case CollectDistinct(_, _, _, binding) => {binding}
    case InjectedScan(_, _, _, _, binding, _, _) => {binding}
    case Ship(_, _, _) => {}
    case Merge(_, _, binding) => {binding}
    case Return(_) => {}
  }

  /** A step that goes on, and neither reads nor writes the given names. */
  predicate Ignores(step: Step, names: set<string>) {
    !step.Return? && Writes(step) !! names && forall n :: n in names ==> R.StepReads(step)[n] == 0
  }

  predicate AllIgnore(steps: seq<Step>, names: set<string>) {
    forall k :: 0 <= k < |steps| ==> Ignores(steps[k], names)
  }

  /** A state with the given names taken out of its environment. */
  function Hide(st: R.State, names: set<string>): R.State {
    st.(env := st.env - names)
  }

  function HideIn(r: Result<R.State>, names: set<string>): Result<R.State> {
    match r
    case Ok(st) => Ok(Hide(st, names))
    case Err(e) => Err(e)
  }

  lemma {:induction false} HiddenAgrees(env: R.Env, names: set<string>, needed: multiset<string>)
    requires forall n :: n in names ==> needed[n] == 0
    ensures R.Agree(env - names, env, needed)
  {
  }

  lemma {:induction false} InjectedIgnores(e: R.Engine, st: R.State, step: Step, names: set<string>)
    requires step.InjectedScan? && Ignores(step, names)
    ensures R.InjectedOver(e, st.env - names, st.pins, step) == R.InjectedOver(e, st.env, st.pins, step)
  {
    HiddenAgrees(st.env, names, R.StepReads(step));
    R.NameAgrees(st.env - names, st.env, step.keysFrom, R.StepReads(step));
    R.ExtrasAgree(st.env - names, st.env, step.extras, R.StepReads(step));
  }

  lemma {:induction false} MergeIgnores(w: World, fragment: Fragment, env: R.Env, step: Step, names: set<string>)
    requires step.Merge? && Ignores(step, names)
    ensures R.Merged(w, fragment, step.inputs, env - names) == R.Merged(w, fragment, step.inputs, env)
  {
    HiddenAgrees(env, names, R.StepReads(step));
    R.InputsAgree(env - names, env, step.inputs, R.StepReads(step));
  }

  lemma {:induction false} BindHidden(env: R.Env, name: string, m: B.Meaning, names: set<string>)
    requires name !in names
    ensures (env - names)[name := m] == env[name := m] - names
  {
  }

  lemma {:induction false} CollectIgnores(st: R.State, step: Step, names: set<string>)
    requires step.CollectDistinct? && Ignores(step, names)
    ensures R.CollectStep(Hide(st, names), step.input, step.key, step.binding) ==
              HideIn(R.CollectStep(st, step.input, step.key, step.binding), names)
  {
    HiddenAgrees(st.env, names, R.StepReads(step));
    R.NameAgrees(st.env - names, st.env, step.input, R.StepReads(step));
    var keys := R.KeysOver(st.env, step.input, step.key);
    if keys.Ok? {
      BindHidden(st.env, step.binding, B.KeySetOf(keys.value), names);
    }
  }

  lemma {:induction false} ShipIgnores(e: R.Engine, st: R.State, step: Step, names: set<string>)
    requires step.Ship? && Ignores(step, names)
    ensures R.ShipStep(e, Hide(st, names), step.datasource, step.input, step.table) ==
              HideIn(R.ShipStep(e, st, step.datasource, step.input, step.table), names)
  {
    HiddenAgrees(st.env, names, R.StepReads(step));
    R.NameAgrees(st.env - names, st.env, step.input, R.StepReads(step));
  }

  /** Binding the same outcome of a read with and without some names. */
  lemma {:induction false} BoundIgnores(st: R.State, name: string, r: Result<Table>, names: set<string>)
    requires name !in names && r.Ok?
    ensures Hide(st, names).(env := Hide(st, names).env[name := B.Rel(r.value)]) ==
              Hide(st.(env := st.env[name := B.Rel(r.value)]), names)
  {
    BindHidden(st.env, name, B.Rel(r.value), names);
  }

  /** A step that ignores some names does the same without them. */
  lemma {:induction false} StepIgnores(e: R.Engine, fragments: map<string, Fragment>, step: Step, st: R.State,
                                       names: set<string>)
    requires Ignores(step, names)
    ensures R.ApplyStep(e, fragments, step, Hide(st, names)) == HideIn(R.ApplyStep(e, fragments, step, st), names)
  {
    match step
    case SourceScan(ds, scan, binding) =>
      var r := e.fetch(st.pins, ds, scan);
      if r.Ok? {
        BoundIgnores(st, binding, r, names);
      }
    case CollectDistinct(_, _, _, _) => CollectIgnores(st, step, names);
    case InjectedScan(_, _, _, _, binding, _, _) =>
      InjectedIgnores(e, st, step, names);
      var r := R.InjectedOver(e, st.env, st.pins, step);
      if r.Ok? {
        BoundIgnores(st, binding, r, names);
      }
    case Ship(_, _, _) => ShipIgnores(e, st, step, names);
    case Merge(fragment, inputs, binding) =>
      if fragment in fragments {
        MergeIgnores(e.world, fragments[fragment], st.env, step, names);
        var r := R.Merged(e.world, fragments[fragment], inputs, st.env);
        if r.Ok? {
          BoundIgnores(st, binding, r, names);
        }
      }
  }

  /** A step changes no name but the one it writes. */
  lemma {:induction false} StepKeepsNames(e: R.Engine, fragments: map<string, Fragment>, step: Step, st: R.State,
                                          name: string)
    requires !step.Return? && name !in Writes(step)
    ensures var after := R.ApplyStep(e, fragments, step, st);
            after.Ok? ==> (name in after.value.env <==> name in st.env) &&
                          (name in st.env ==> after.value.env[name] == st.env[name])
  {
  }

  lemma {:induction false} FollowIgnores(e: R.Engine, fragments: map<string, Fragment>, steps: seq<Step>, st: R.State,
                                         names: set<string>)
    requires AllIgnore(steps, names)
    ensures R.Follow(e, fragments, steps, Hide(st, names)) == HideIn(R.Follow(e, fragments, steps, st), names)
  {
    if steps != [] {
      assert Ignores(steps[0], names) && AllIgnore(steps[1..], names);
      StepIgnores(e, fragments, steps[0], st, names);
      var next := R.ApplyStep(e, fragments, steps[0], st);
      if next.Ok? {
        FollowIgnores(e, fragments, steps[1..], next.value, names);
      }
    }
  }

  lemma {:induction false} FollowKeepsNames(e: R.Engine, fragments: map<string, Fragment>, steps: seq<Step>,
                                            st: R.State, name: string)
    requires forall k :: 0 <= k < |steps| ==> !steps[k].Return? && name !in Writes(steps[k])
    ensures var after := R.Follow(e, fragments, steps, st);
            after.Ok? ==> (name in after.value.env <==> name in st.env) &&
                          (name in st.env ==> after.value.env[name] == st.env[name])
  {
    if steps != [] {
      StepKeepsNames(e, fragments, steps[0], st, name);
      var next := R.ApplyStep(e, fragments, steps[0], st);
      if next.Ok? {
        FollowKeepsNames(e, fragments, steps[1..], next.value, name);
      }
    }
  }

  /** Equal states but for some names. */
  ghost predicate Alike(a: R.State, b: R.State, names: set<string>) {
    Hide(a, names) == Hide(b, names)
  }

  /** From states alike but for names that the steps ignore, both go on or both fail, and end alike. */
  lemma {:induction false} FollowAlike(e: R.Engine, fragments: map<string, Fragment>, steps: seq<Step>, a: R.State,
                                       b: R.State, names: set<string>)
    requires AllIgnore(steps, names) && Alike(a, b, names)
    ensures R.Follow(e, fragments, steps, a).Ok? <==> R.Follow(e, fragments, steps, b).Ok?
    ensures R.Follow(e, fragments, steps, a).Ok? ==>
              Alike(R.Follow(e, fragments, steps, a).value, R.Follow(e, fragments, steps, b).value, names)
  {
    FollowIgnores(e, fragments, steps, a, names);
    FollowIgnores(e, fragments, steps, b, names);
  }

  lemma {:induction false} RunAppend(e: R.Engine, fragments: map<string, Fragment>, steps: seq<Step>, rest: seq<Step>,
                                     st: R.State)
    requires R.GoesOn(steps)
    ensures R.Run(e, fragments, steps + rest, st) ==
              (match R.Follow(e, fragments, steps, st)
               case Ok(next) => R.Run(e, fragments, rest, next)
               case Err(error) => Err(error))
  {
    if steps == [] {
      assert steps + rest == rest;
    } else {
      assert (steps + rest)[1..] == steps[1..] + rest;
      var next := R.ApplyStep(e, fragments, steps[0], st);
      if next.Ok? {
        RunAppend(e, fragments, steps[1..], rest, next.value);
      }
    }
  }

  lemma {:induction false} RunsOn(e: R.Engine, fragments: map<string, Fragment>, step: Step, rest: seq<Step>,
                                  st: R.State)
    requires !step.Return?
    ensures R.Run(e, fragments, [step] + rest, st) ==
              (match R.ApplyStep(e, fragments, step, st)
               case Ok(next) => R.Run(e, fragments, rest, next)
               case Err(error) => Err(error))
  {
    assert ([step] + rest)[1..] == rest;
  }

  // --- the two plans -----------------------------------------------------------------------------------------

  /** The steps a plan takes besides: between the key collection, the probe's read, the join and the return. */
  datatype Between = Between(beforeRead: seq<Step>, beforeJoin: seq<Step>, beforeReturn: seq<Step>)

  /** They touch neither what the rewrite binds nor the build. */
  predicate Aside(n: Names, others: Between) {
    && AllIgnore(others.beforeRead, {n.keys, n.probed})
    && AllIgnore(others.beforeJoin, {n.keys, n.probed})
    && AllIgnore(others.beforeReturn, {n.keys, n.probed, n.joined})
    && (forall k :: 0 <= k < |others.beforeRead| ==> n.build !in Writes(others.beforeRead[k]))
    && (forall k :: 0 <= k < |others.beforeJoin| ==> n.build !in Writes(others.beforeJoin[k]))
  }

  function JoinAndReturn(n: Names, probe: Side, others: Between): seq<Step> {
    [Merge(n.fragment, MergeInputs(probe, n.build, n.probed), n.joined)] + (others.beforeReturn + [Return(n.joined)])
  }

  /** Collect the build's keys, read the probe reduced by them, join, return, and other steps between. */
  function ReducedPlan(n: Names, ds: string, scan: ScanSpec, key: string, cap: nat, column: string, ndv: Option<nat>,
                       probe: Side, others: Between): seq<Step>
  {
    [CollectDistinct(n.build, key, cap, n.keys)] + (others.beforeRead +
      ([InjectedScan(ds, scan, column, n.keys, n.probed, ndv, [])] +
        (others.beforeJoin + JoinAndReturn(n, probe, others))))
  }

  /** Read the probe plainly, join, return, and the same other steps between. */
  function PlainPlan(n: Names, ds: string, scan: ScanSpec, probe: Side, others: Between): seq<Step> {
    others.beforeRead + ([SourceScan(ds, scan, n.probed)] + (others.beforeJoin + JoinAndReturn(n, probe, others)))
  }

  lemma {:induction false} ReadsPair(env: R.Env, a: MergeInput, b: MergeInput, left: Table, right: Table)
    requires R.Relation(env, a.binding) == Ok(left) && R.Relation(env, b.binding) == Ok(right)
    ensures R.ReadInputs(env, [a, b]) == Ok([(a.table, left), (b.table, right)])
  {
    var pair := [a, b];
    assert pair[..|pair| - 1] == [a] && [a][..0] == [];
    var x, y := (a.table, left), (b.table, right);
    assert [] + [x] == [x] && [x] + [y] == [x, y];
    assert R.ReadInputs(env, [a]) == Ok([x]);
  }

  /** Joining the two held relations binds what the evaluator makes of them. */
  lemma {:induction false} JoinApplies(e: R.Engine, fragments: map<string, Fragment>, n: Names, probe: Side,
                                       st: R.State, build: Table, probed: Table)
    requires n.fragment in fragments && fragments[n.fragment].HashJoin?
    requires n.build in st.env && st.env[n.build] == B.Rel(build)
    requires n.probed in st.env && st.env[n.probed] == B.Rel(probed)
    ensures var sides := Sided(probe, build, probed);
            R.ApplyStep(e, fragments, Merge(n.fragment, MergeInputs(probe, n.build, n.probed), n.joined), st) ==
              Ok(st.(env := st.env[n.joined := B.Rel(e.world.eval(fragments[n.fragment], Inputs(sides.0, sides.1)))]))
  {
    var inputs, sides := MergeInputs(probe, n.build, n.probed), Sided(probe, build, probed);
    ReadsPair(st.env, inputs[0], inputs[1], sides.0, sides.1);
    assert inputs == [inputs[0], inputs[1]];
  }

  /** From the join on: both plans return what they joined, or both fail. */
  lemma {:induction false} SameFromJoin(e: R.Engine, fragments: map<string, Fragment>, n: Names, probe: Side,
                                        others: Between, a: R.State, b: R.State, build: Table, x: Table, y: Table)
    requires n.fragment in fragments && fragments[n.fragment].HashJoin? && Aside(n, others)
    requires Alike(a, b, {n.keys, n.probed})
    requires n.build in a.env && a.env[n.build] == B.Rel(build) && n.build in b.env && b.env[n.build] == B.Rel(build)
    requires n.probed in a.env && a.env[n.probed] == B.Rel(x) && n.probed in b.env && b.env[n.probed] == B.Rel(y)
    requires RowsOut(e.world, fragments[n.fragment], Sided(probe, build, x)) ==
               RowsOut(e.world, fragments[n.fragment], Sided(probe, build, y))
    ensures var reduced := R.Run(e, fragments, JoinAndReturn(n, probe, others), a);
            var plain := R.Run(e, fragments, JoinAndReturn(n, probe, others), b);
            (reduced.Ok? <==> plain.Ok?) && (reduced.Ok? ==> multiset(reduced.value.rows) == multiset(plain.value.rows))
  {
    var merge := Merge(n.fragment, MergeInputs(probe, n.build, n.probed), n.joined);
    JoinApplies(e, fragments, n, probe, a, build, x);
    JoinApplies(e, fragments, n, probe, b, build, y);
    var joinedA, joinedB := R.ApplyStep(e, fragments, merge, a).value, R.ApplyStep(e, fragments, merge, b).value;
    RunsOn(e, fragments, merge, others.beforeReturn + [Return(n.joined)], a);
    RunsOn(e, fragments, merge, others.beforeReturn + [Return(n.joined)], b);
    AlikeAfterBind(a, b, {n.keys, n.probed}, n.joined, joinedA.env[n.joined], joinedB.env[n.joined]);
    assert {n.keys, n.probed} + {n.joined} == {n.keys, n.probed, n.joined};
    ReturnsBoth(e, fragments, n, others.beforeReturn, joinedA, joinedB);
  }

  lemma {:induction false} AlikeAfterBind(a: R.State, b: R.State, names: set<string>, name: string, x: B.Meaning,
                                          y: B.Meaning)
    requires Alike(a, b, names)
    ensures Alike(a.(env := a.env[name := x]), b.(env := b.env[name := y]), names + {name})
  {
    assert a.env[name := x] - (names + {name}) == a.env - names - {name};
    assert b.env[name := y] - (names + {name}) == b.env - names - {name};
  }

  lemma {:induction false} ReturnsBoth(e: R.Engine, fragments: map<string, Fragment>, n: Names, steps: seq<Step>,
                                       a: R.State, b: R.State)
    requires AllIgnore(steps, {n.keys, n.probed, n.joined}) && Alike(a, b, {n.keys, n.probed, n.joined})
    requires n.joined in a.env && a.env[n.joined].Rel? && n.joined in b.env && b.env[n.joined].Rel?
    ensures var x := R.Run(e, fragments, steps + [Return(n.joined)], a);
            var y := R.Run(e, fragments, steps + [Return(n.joined)], b);
            && (x.Ok? <==> y.Ok?)
            && (x.Ok? ==> x.value == a.env[n.joined].t && y.value == b.env[n.joined].t)
  {
    RunAppend(e, fragments, steps, [Return(n.joined)], a);
    RunAppend(e, fragments, steps, [Return(n.joined)], b);
    FollowAlike(e, fragments, steps, a, b, {n.keys, n.probed, n.joined});
    FollowKeepsNames(e, fragments, steps, a, n.joined);
    FollowKeepsNames(e, fragments, steps, b, n.joined);
  }

  /** From the probe's read on. */
  lemma {:induction false} SameFromRead(e: R.Engine, fragments: map<string, Fragment>, n: Names, probe: Side,
                                        others: Between, a: R.State, b: R.State, build: Table, x: Table, y: Table)
    requires n.fragment in fragments && fragments[n.fragment].HashJoin? && Aside(n, others) && Apart(n)
    requires Alike(a, b, {n.keys, n.probed})
    requires n.build in a.env && a.env[n.build] == B.Rel(build) && n.build in b.env && b.env[n.build] == B.Rel(build)
    requires n.probed in a.env && a.env[n.probed] == B.Rel(x) && n.probed in b.env && b.env[n.probed] == B.Rel(y)
    requires RowsOut(e.world, fragments[n.fragment], Sided(probe, build, x)) ==
               RowsOut(e.world, fragments[n.fragment], Sided(probe, build, y))
    ensures var reduced := R.Run(e, fragments, others.beforeJoin + JoinAndReturn(n, probe, others), a);
            var plain := R.Run(e, fragments, others.beforeJoin + JoinAndReturn(n, probe, others), b);
            (reduced.Ok? <==> plain.Ok?) && (reduced.Ok? ==> multiset(reduced.value.rows) == multiset(plain.value.rows))
  {
    RunAppend(e, fragments, others.beforeJoin, JoinAndReturn(n, probe, others), a);
    RunAppend(e, fragments, others.beforeJoin, JoinAndReturn(n, probe, others), b);
    FollowAlike(e, fragments, others.beforeJoin, a, b, {n.keys, n.probed});
    if R.Follow(e, fragments, others.beforeJoin, a).Ok? {
      FollowKeepsNames(e, fragments, others.beforeJoin, a, n.build);
      FollowKeepsNames(e, fragments, others.beforeJoin, b, n.build);
      FollowKeepsNames(e, fragments, others.beforeJoin, a, n.probed);
      FollowKeepsNames(e, fragments, others.beforeJoin, b, n.probed);
      SameFromJoin(e, fragments, n, probe, others, R.Follow(e, fragments, others.beforeJoin, a).value,
                   R.Follow(e, fragments, others.beforeJoin, b).value, build, x, y);
    }
  }

  lemma {:induction false} InjectedApplies(e: R.Engine, fragments: map<string, Fragment>, step: Step, st: R.State,
                                           keys: Table)
    requires step.InjectedScan? && step.extras == [] && step.keysFrom in st.env
    requires st.env[step.keysFrom] == B.KeySetOf(keys)
    ensures R.ApplyStep(e, fragments, step, st) ==
              (match e.deliver(st.pins, step.datasource, step.scan, step.injectColumn, keys, step.ndv,
                               InList(step.injectColumn, KeyValues(keys)), [])
               case Ok(t) => Ok(st.(env := st.env[step.binding := B.Rel(t)]))
               case Err(error) => Err(error))
  {
  }

  /** The key pair the rewrite uses, and what it assumes where the probe is read. */
  ghost predicate Rewritable(w: World, fragment: Fragment, pins: Pins, ds: string, scan: ScanSpec, key: string,
                             column: string, ndv: Option<nat>, probe: Side, i: nat, build: Table)
  {
    && fragment.HashJoin? && EvaluatesJoins(w, fragment) && Reducible(fragment.joinType, probe)
    && DistinctKeys(build, key).Ok?
    && Injectable(w, pins, ds, scan, column, DistinctKeys(build, key).value, ndv, [])
    && MarkAccepted(w, ds, scan) && MarkFits(scan, FetchTuples(w, pins, ds, scan, None))
    && i < |fragment.leftKeys| && i < |fragment.rightKeys|
    && (probe == InLeft ==> fragment.leftKeys[i] == column && fragment.rightKeys[i] == key)
    && (probe == InRight ==> fragment.rightKeys[i] == column && fragment.leftKeys[i] == key)
  }

  /** The place in a plan where the probe is read, if its steps before lead there, allows the rewrite. */
  ghost predicate RewritableAfter(w: World, fragments: map<string, Fragment>, n: Names, ds: string, scan: ScanSpec,
                                  key: string, column: string, ndv: Option<nat>, probe: Side, i: nat, others: Between,
                                  st: R.State, build: Table)
    requires n.fragment in fragments && Aside(n, others)
  {
    var at := R.Follow(R.EngineOf(w), fragments, others.beforeRead, st);
    at.Ok? ==> Rewritable(Now(w, at.value.pins), fragments[n.fragment], at.value.pins, ds, scan, key, column, ndv,
      probe, i, build)
  }

  /** Whenever the first plan returns, so does the second, with the same rows. */
  ghost predicate SameRuns(e: R.Engine, fragments: map<string, Fragment>, reduced: seq<Step>, plain: seq<Step>,
                           st: R.State) {
    var x, y := R.Run(e, fragments, reduced, st), R.Run(e, fragments, plain, st);
    x.Ok? ==> y.Ok? && multiset(x.value.rows) == multiset(y.value.rows)
  }

  /** Either plan returns exactly when the other does. */
  ghost predicate SucceedAlike(e: R.Engine, fragments: map<string, Fragment>, reduced: seq<Step>, plain: seq<Step>,
                               st: R.State) {
    R.Run(e, fragments, reduced, st).Ok? <==> R.Run(e, fragments, plain, st).Ok?
  }

  /** The injected read succeeds where the plain one does. */
  predicate ReadsTogether(e: R.Engine, pins: Pins, ds: string, scan: ScanSpec, column: string, keys: Table,
                          ndv: Option<nat>)
  {
    e.fetch(pins, ds, scan).Ok? ==>
      e.deliver(pins, ds, scan, column, keys, ndv, InList(column, KeyValues(keys)), []).Ok?
  }

  predicate TogetherAfter(e: R.Engine, fragments: map<string, Fragment>, others: Between, st: R.State, ds: string,
                          scan: ScanSpec, column: string, keys: Table, ndv: Option<nat>)
    requires R.GoesOn(others.beforeRead)
  {
    var at := R.Follow(e, fragments, others.beforeRead, st);
    at.Ok? ==> ReadsTogether(e, at.value.pins, ds, scan, column, keys, ndv)
  }

  /**
   * What the delivery needs where the probe is read, beside the plain read: its column, and the page count of a table
   * read in partitions.
   */
  predicate Delivered(w: World, pins: Pins, ds: string, scan: ScanSpec, column: string, keys: Table, ndv: Option<nat>) {
    FetchTuples(w, pins, ds, scan, None).Ok? ==>
      && Reducing(FetchTuples(w, pins, ds, scan, None).value, column, [])
      && (OneQuery(w.registry[ds], Chosen(w, w.registry[ds], scan, column, keys, ndv))
          || (scan.table.Some? && w.pages(w.registry[ds], scan.schema, scan.table.value).Some?))
  }

  predicate DeliveredAfter(w: World, fragments: map<string, Fragment>, others: Between, st: R.State, ds: string,
                           scan: ScanSpec, column: string, keys: Table, ndv: Option<nat>)
    requires R.GoesOn(others.beforeRead)
  {
    var at := R.Follow(R.EngineOf(w), fragments, others.beforeRead, st);
    at.Ok? ==> Delivered(Now(w, at.value.pins), at.value.pins, ds, scan, column, keys, ndv)
  }

  /** The rewrite loses no success: where the delivery has what it needs, either plan returns when the other does. */
  lemma {:induction false} ReducedPlanSucceeds(w: World, fragments: map<string, Fragment>, n: Names, ds: string,
                                               scan: ScanSpec, key: string, cap: nat, column: string, ndv: Option<nat>,
                                               probe: Side, i: nat, others: Between, st: R.State, build: Table)
    requires n.fragment in fragments && Apart(n) && Aside(n, others)
    requires n.build in st.env && st.env[n.build] == B.Rel(build) && DistinctKeys(build, key).Ok?
    requires fragments[n.fragment].HashJoin?
    ensures RewritableAfter(w, fragments, n, ds, scan, key, column, ndv, probe, i, others, st, build)
              && DeliveredAfter(w, fragments, others, st, ds, scan, column, DistinctKeys(build, key).value, ndv) ==>
              SucceedAlike(R.EngineOf(w), fragments, ReducedPlan(n, ds, scan, key, cap, column, ndv, probe, others),
                           PlainPlan(n, ds, scan, probe, others), st)
  {
    if RewritableAfter(w, fragments, n, ds, scan, key, column, ndv, probe, i, others, st, build)
      && DeliveredAfter(w, fragments, others, st, ds, scan, column, DistinctKeys(build, key).value, ndv) {
      var at := R.Follow(R.EngineOf(w), fragments, others.beforeRead, st);
      if at.Ok? {
        ReadsAgree(w, fragments[n.fragment], at.value.pins, ds, scan, key, column, ndv, probe, i, build);
        CollectedKeys(build, key, Null);
        ReadsSucceedTogether(w, at.value.pins, ds, scan, column, DistinctKeys(build, key).value, ndv);
      }
      SamePlans(R.EngineOf(w), fragments, n, ds, scan, key, cap, column, ndv, probe, others, st, build);
    }
  }

  lemma {:induction false} ReadsSucceedTogether(w: World, pins: Pins, ds: string, scan: ScanSpec, column: string,
                                                keys: Table, ndv: Option<nat>)
    requires Deliverable(Now(w, pins), pins, ds, scan, column, keys, ndv, []) && keys.schema != []
    requires Delivered(Now(w, pins), pins, ds, scan, column, keys, ndv)
    ensures ReadsTogether(R.EngineOf(w), pins, ds, scan, column, keys, ndv)
  {
    if FetchSource(Now(w, pins), pins, ds, scan).Ok? {
      SourceReadsTuples(Now(w, pins), pins, ds, scan);
      DeliverySucceeds(Now(w, pins), pins, ds, scan, column, keys, ndv, []);
    }
  }

  /**
   * The planner's rewrite, on whole plans with any other steps between: whenever the reduced plan returns, so does
   * the plain one, and with the same rows, for every reducible join kind and side, every delivery and either way of
   * reading.
   */
  lemma {:induction false} ReducedPlanIsPlainPlan(w: World, fragments: map<string, Fragment>, n: Names, ds: string,
                                                  scan: ScanSpec, key: string, cap: nat, column: string,
                                                  ndv: Option<nat>, probe: Side, i: nat, others: Between, st: R.State,
                                                  build: Table)
    requires n.fragment in fragments && Apart(n) && Aside(n, others)
    requires n.build in st.env && st.env[n.build] == B.Rel(build) && DistinctKeys(build, key).Ok?
    requires fragments[n.fragment].HashJoin?
    ensures RewritableAfter(w, fragments, n, ds, scan, key, column, ndv, probe, i, others, st, build) ==>
              SameRuns(R.EngineOf(w), fragments, ReducedPlan(n, ds, scan, key, cap, column, ndv, probe, others),
                       PlainPlan(n, ds, scan, probe, others), st)
  {
    if RewritableAfter(w, fragments, n, ds, scan, key, column, ndv, probe, i, others, st, build) {
      var at := R.Follow(R.EngineOf(w), fragments, others.beforeRead, st);
      if at.Ok? {
        ReadsAgree(w, fragments[n.fragment], at.value.pins, ds, scan, key, column, ndv, probe, i, build);
      }
      SamePlans(R.EngineOf(w), fragments, n, ds, scan, key, cap, column, ndv, probe, others, st, build);
    }
  }

  /** What the injected read must be to the plain one at a place in a plan. */
  ghost predicate ReadAlike(e: R.Engine, fragment: Fragment, pins: Pins, ds: string, scan: ScanSpec, column: string,
                            keys: Table, ndv: Option<nat>, probe: Side, build: Table)
    requires fragment.HashJoin?
  {
    var x := e.deliver(pins, ds, scan, column, keys, ndv, InList(column, KeyValues(keys)), []);
    var y := e.fetch(pins, ds, scan);
    x.Ok? ==>
      && y.Ok?
      && RowsOut(e.world, fragment, Sided(probe, build, x.value)) ==
           RowsOut(e.world, fragment, Sided(probe, build, y.value))
  }

  lemma {:induction false} ReadsAgree(w: World, fragment: Fragment, pins: Pins, ds: string, scan: ScanSpec, key: string,
                                      column: string, ndv: Option<nat>, probe: Side, i: nat, build: Table)
    requires Rewritable(Now(w, pins), fragment, pins, ds, scan, key, column, ndv, probe, i, build)
    ensures ReadAlike(R.EngineOf(w), fragment, pins, ds, scan, column, DistinctKeys(build, key).value, ndv, probe,
                      build)
  {
    SameRowsOut(Now(w, pins), pins, fragment, ds, scan, key, column, ndv, probe, i, build);
  }

  /** Wherever the two reads lead to the same join rows, the two plans return the same rows. */
  lemma {:induction false} SamePlans(e: R.Engine, fragments: map<string, Fragment>, n: Names, ds: string,
                                     scan: ScanSpec, key: string, cap: nat, column: string, ndv: Option<nat>,
                                     probe: Side, others: Between, st: R.State, build: Table)
    requires n.fragment in fragments && fragments[n.fragment].HashJoin? && Apart(n) && Aside(n, others)
    requires n.build in st.env && st.env[n.build] == B.Rel(build) && DistinctKeys(build, key).Ok?
    requires var at := R.Follow(e, fragments, others.beforeRead, st);
             at.Ok? ==> ReadAlike(e, fragments[n.fragment], at.value.pins, ds, scan, column,
               DistinctKeys(build, key).value, ndv,
                                  probe, build)
    ensures SameRuns(e, fragments, ReducedPlan(n, ds, scan, key, cap, column, ndv, probe, others),
                     PlainPlan(n, ds, scan, probe, others), st)
    ensures TogetherAfter(e, fragments, others, st, ds, scan, column, DistinctKeys(build, key).value, ndv) ==>
              SucceedAlike(e, fragments, ReducedPlan(n, ds, scan, key, cap, column, ndv, probe, others),
                           PlainPlan(n, ds, scan, probe, others), st)
  {
    var keys := DistinctKeys(build, key).value;
    var collected := st.(env := st.env[n.keys := B.KeySetOf(keys)]);
    var rest := others.beforeJoin + JoinAndReturn(n, probe, others);
    var read := [InjectedScan(ds, scan, column, n.keys, n.probed, ndv, [])] + rest;
    RunsOn(e, fragments, CollectDistinct(n.build, key, cap, n.keys), others.beforeRead + read, st);
    RunAppend(e, fragments, others.beforeRead, read, collected);
    RunAppend(e, fragments, others.beforeRead, [SourceScan(ds, scan, n.probed)] + rest, st);
    assert Hide(collected, {n.keys, n.probed}).env == Hide(st, {n.keys, n.probed}).env;
    FollowAlike(e, fragments, others.beforeRead, collected, st, {n.keys, n.probed});
    if R.Follow(e, fragments, others.beforeRead, collected).Ok? {
      FollowKeepsNames(e, fragments, others.beforeRead, collected, n.build);
      FollowKeepsNames(e, fragments, others.beforeRead, collected, n.keys);
      FollowKeepsNames(e, fragments, others.beforeRead, st, n.build);
      SameReads(e, fragments, n, ds, scan, column, ndv, probe, others,
        R.Follow(e, fragments, others.beforeRead, collected).value,
                R.Follow(e, fragments, others.beforeRead, st).value, build, keys);
    }
  }

  /** From states alike but for the keys, the reduced read and the plain one lead to the same join. */
  lemma {:induction false} SameReads(e: R.Engine, fragments: map<string, Fragment>, n: Names, ds: string,
                                     scan: ScanSpec, column: string, ndv: Option<nat>, probe: Side, others: Between,
                                     a: R.State, b: R.State, build: Table, keys: Table)
    requires n.fragment in fragments && fragments[n.fragment].HashJoin?
    requires Apart(n) && Aside(n, others) && Alike(a, b, {n.keys, n.probed})
    requires ReadAlike(e, fragments[n.fragment], b.pins, ds, scan, column, keys, ndv, probe, build)
    requires n.build in a.env && a.env[n.build] == B.Rel(build) && n.build in b.env && b.env[n.build] == B.Rel(build)
    requires n.keys in a.env && a.env[n.keys] == B.KeySetOf(keys)
    ensures var rest := others.beforeJoin + JoinAndReturn(n, probe, others);
            var reduced := R.Run(e, fragments, [InjectedScan(ds, scan, column, n.keys, n.probed, ndv, [])] + rest, a);
            var plain := R.Run(e, fragments, [SourceScan(ds, scan, n.probed)] + rest, b);
            && (reduced.Ok? ==> plain.Ok? && multiset(reduced.value.rows) == multiset(plain.value.rows))
            && (plain.Ok? && ReadsTogether(e, b.pins, ds, scan, column, keys, ndv) ==> reduced.Ok?)
  {
    var rest := others.beforeJoin + JoinAndReturn(n, probe, others);
    var step := InjectedScan(ds, scan, column, n.keys, n.probed, ndv, []);
    RunsOn(e, fragments, step, rest, a);
    RunsOn(e, fragments, SourceScan(ds, scan, n.probed), rest, b);
    InjectedApplies(e, fragments, step, a, keys);
    var x := e.deliver(b.pins, ds, scan, column, keys, ndv, InList(column, KeyValues(keys)), []);
    if x.Ok? {
      var y := e.fetch(b.pins, ds, scan);
      AlikeAfterBind(a, b, {n.keys, n.probed}, n.probed, B.Rel(x.value), B.Rel(y.value));
      assert {n.keys, n.probed} + {n.probed} == {n.keys, n.probed};
      SameFromRead(e, fragments, n, probe, others, a.(env := a.env[n.probed := B.Rel(x.value)]),
                   b.(env := b.env[n.probed := B.Rel(y.value)]), build, x.value, y.value);
    }
  }

  // --- the join itself -------------------------------------------------------------------------------------------

  lemma {:induction false} SameRowsOut(w: World, pins: Pins, fragment: Fragment, ds: string, scan: ScanSpec,
                                       key: string, column: string, ndv: Option<nat>, probe: Side, i: nat, build: Table)
    requires Rewritable(w, fragment, pins, ds, scan, key, column, ndv, probe, i, build)
    ensures var fetched := RunInjectedScan(w, pins, ds, scan, column, DistinctKeys(build, key).value, ndv, []);
            fetched.Ok? ==>
              && FetchSource(w, pins, ds, scan).Ok?
              && RowsOut(w, fragment, Sided(probe, build, fetched.value)) ==
                   RowsOut(w, fragment, Sided(probe, build, FetchSource(w, pins, ds, scan).value))
  {
    var fetched := RunInjectedScan(w, pins, ds, scan, column, DistinctKeys(build, key).value, ndv, []);
    var plain := FetchScan(w, pins, ds, scan, None);
    var schema := if plain.Ok? then plain.value.schema else [];
    var j := SidedSpec(fragment, probe, build.schema, schema);
    InjectionIsExact(w, pins, ds, scan, ndv, build, key, column, fragment.joinType, j, probe, i);
    if fetched.Ok? {
      MarkedReadIsPlain(w, pins, ds, scan);
      SameJoinSameRows(w, fragment, probe, build, fetched.value, plain.value);
      SameJoinSameRows(w, fragment, probe, build, FetchSource(w, pins, ds, scan).value, plain.value);
    }
  }

  function SidedSpec(fragment: Fragment, probe: Side, build: seq<Field>, probed: seq<Field>): JoinSpec
    requires fragment.HashJoin?
  {
    if probe == InLeft then JoinSpec(probed, build, fragment.leftKeys, fragment.rightKeys)
    else JoinSpec(build, probed, fragment.leftKeys, fragment.rightKeys)
  }

  lemma {:induction false} SameJoinSameRows(w: World, fragment: Fragment, probe: Side, build: Table, a: Table, b: Table)
    requires fragment.HashJoin? && EvaluatesJoins(w, fragment) && SameShape(a.schema, b.schema)
    requires var j := SidedSpec(fragment, probe, build.schema, b.schema);
             JoinWith(fragment.joinType, j, probe, build.rows, a.rows) ==
               JoinWith(fragment.joinType, j, probe, build.rows, b.rows)
    ensures RowsOut(w, fragment, Sided(probe, build, a)) == RowsOut(w, fragment, Sided(probe, build, b))
  {
    var x, y := Sided(probe, build, a), Sided(probe, build, b);
    ShapedJoin(fragment.joinType, SpecOf(fragment, x.0, x.1), SpecOf(fragment, y.0, y.1), x.0.rows, x.1.rows);
    assert JoinOf(fragment, x.0, x.1) == JoinOf(fragment, y.0, y.1);
  }

  predicate SameJoinShape(a: JoinSpec, b: JoinSpec) {
    SameShape(a.left, b.left) && SameShape(a.right, b.right) && a.leftKeys == b.leftKeys && a.rightKeys == b.rightKeys
  }

  lemma {:induction false} ShapedMatch(a: JoinSpec, b: JoinSpec, l: Row, r: Row)
    requires SameJoinShape(a, b)
    ensures RowsMatch(a, l, r) == RowsMatch(b, l, r)
  {
    forall i | 0 <= i < |a.leftKeys| && i < |a.rightKeys|
      ensures Cell(a.left, l, a.leftKeys[i]) == Cell(b.left, l, b.leftKeys[i])
      ensures Cell(a.right, r, a.rightKeys[i]) == Cell(b.right, r, b.rightKeys[i])
    {
      ShapeIndex(a.left, b.left, a.leftKeys[i]);
      ShapeIndex(a.right, b.right, a.rightKeys[i]);
    }
  }

  lemma {:induction false} ShapedLeft(kind: JoinKind, a: JoinSpec, b: JoinSpec, right: seq<Row>, l: Row)
    requires SameJoinShape(a, b)
    ensures LeftShare(kind, a, right, l) == LeftShare(kind, b, right, l)
  {
    forall k | 0 <= k < |right|
      ensures RowsMatch(a, l, right[k]) == RowsMatch(b, l, right[k])
      ensures PairWith(a, l)(right[k]) == PairWith(b, l)(right[k])
    {
      ShapedMatch(a, b, l, right[k]);
    }
    SumCongruence(PairWith(a, l), PairWith(b, l), right);
    assert LeftHasMatch(a, l, right) == LeftHasMatch(b, l, right);
  }

  lemma {:induction false} ShapedRight(kind: JoinKind, a: JoinSpec, b: JoinSpec, left: seq<Row>, r: Row)
    requires SameJoinShape(a, b)
    ensures RightShare(kind, a, left, r) == RightShare(kind, b, left, r)
  {
    forall k | 0 <= k < |left| ensures RowsMatch(a, left[k], r) == RowsMatch(b, left[k], r) {
      ShapedMatch(a, b, left[k], r);
    }
    assert RightHasMatch(a, left, r) == RightHasMatch(b, left, r);
  }

  /** A join does not depend on the scales in its inputs' schemas. */
  lemma {:induction false} ShapedJoin(kind: JoinKind, a: JoinSpec, b: JoinSpec, left: seq<Row>, right: seq<Row>)
    requires SameJoinShape(a, b)
    ensures Join(kind, a, left, right) == Join(kind, b, left, right)
  {
    forall k | 0 <= k < |left| ensures LeftPart(kind, a, right)(left[k]) == LeftPart(kind, b, right)(left[k]) {
      ShapedLeft(kind, a, b, right, left[k]);
    }
    SumCongruence(LeftPart(kind, a, right), LeftPart(kind, b, right), left);
    forall k | 0 <= k < |right| ensures RightPart(kind, a, left)(right[k]) == RightPart(kind, b, left)(right[k]) {
      ShapedRight(kind, a, b, left, right[k]);
    }
    SumCongruence(RightPart(kind, a, left), RightPart(kind, b, left), right);
  }
}
