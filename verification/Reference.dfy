/** The plan's meaning: its steps evaluated in order over an environment that never forgets a binding. */
module Reference {
  import opened Outcomes
  import opened Ir
  import opened Relations
  import opened Sources
  import opened Injection
  import opened Keys
  import opened Guard
  import B = Bindings
  import P = DecimalProofs
  import T = Typing

  type Env = map<string, B.Meaning>

  /** What a plan runs on: the world, and how a source is read plainly and under a delivery of keys. */
  datatype Engine = Engine(
    world: World,
    fetch: (Pins, string, ScanSpec) -> Result<Table>,
    deliver: (Pins, string, ScanSpec, string, Table, Option<nat>, Pred, seq<Pred>) -> Result<Table>)

  /** The engine whose reads are the connectors' reads of a world. */
  function EngineOf(w: World): Engine {
    Engine(w, Fetcher(w), Deliverer(w))
  }

  function Fetcher(w: World): (Pins, string, ScanSpec) -> Result<Table> {
    (pins: Pins, ds: string, scan: ScanSpec) => FetchSource(Now(w, pins), pins, ds, scan)
  }

  function Deliverer(w: World): (Pins, string, ScanSpec, string, Table, Option<nat>, Pred, seq<Pred>) -> Result<Table> {
    (pins: Pins, ds: string, scan: ScanSpec, column: string, keys: Table, ndv: Option<nat>, primary: Pred,
      extras: seq<Pred>) =>
      Deliver(Now(w, pins), pins, ds, scan, column, keys, ndv, primary, extras)
  }

  datatype State = State(env: Env, pins: Pins)

  function Relation(env: Env, name: string): Result<Table> {
    if name !in env then Err(UnknownBinding(name))
    else if env[name].KeySetOf? then Err(NotARelation(name))
    else Ok(env[name].t)
  }

  /** A relation to be read in place; keys have no batches to lend. */
  function Borrow(env: Env, name: string): Result<Table> {
    if name in env && env[name].KeySetOf? then Err(NotResident(name)) else Relation(env, name)
  }

  function KeysNamed(env: Env, name: string): Result<Table> {
    if name in env && env[name].KeySetOf? then Ok(env[name].t) else Err(NotKeys(name))
  }

  /** A merge's inputs in the order of its input map. */
  function ReadInputs(env: Env, inputs: seq<MergeInput>): (r: Result<seq<(string, Table)>>)
    ensures r.Ok? ==> |r.value| == |inputs|
  {
    if inputs == [] then Ok([])
    else
      var init :- ReadInputs(env, inputs[..|inputs| - 1]);
      var last :- Relation(env, inputs[|inputs| - 1].binding);
      Ok(init + [(inputs[|inputs| - 1].table, last)])
  }

  function ReadExtras(env: Env, extras: seq<ExtraInjection>): Result<seq<KeySet>> {
    if extras == [] then Ok([])
    else
      var init :- ReadExtras(env, extras[..|extras| - 1]);
      var last :- KeysNamed(env, extras[|extras| - 1].keysFrom);
      Ok(init + [KeySet(extras[|extras| - 1].column, last)])
  }

  function Named(tables: seq<(string, Table)>, name: string): Option<Table> {
    if tables == [] then None
    else if tables[0].0 == name then Some(tables[0].1)
    else Named(tables[1..], name)
  }

  /** A fragment over its inputs; the guard checks its input and passes it through. */
  function Evaluate(w: World, fragment: Fragment, tables: seq<(string, Table)>): Result<Table> {
    match fragment
    case SingleRowGuard(keys) =>
      (match Named(tables, "in_0")
       case None => Err(BadSpec)
       case Some(t) => SingleRowGuarded(w, keys, t))
    case _ => Ok(w.eval(fragment, tables))
  }

  function Shipped(pins: Pins, uri: string, table: string, t: Table): Pins {
    pins[uri := (if uri in pins then pins[uri] else map[])[table := t]]
  }

  /** A temp table on the target's path; only DuckDB takes one, and only of types it can ingest. */
  function ShipTable(w: World, pins: Pins, ds: string, table: string, t: Table): Result<Pins> {
    var spec :- Lookup(w, ds);
    if spec.kind != DuckDb then Err(ShipTarget(ds))
    else if exists k :: 0 <= k < |t.schema| && t.schema[k].dtype.OtherType? then Err(BadSpec)
    else Ok(Shipped(pins, spec.uri, table, t))
  }

  function ScanStep(e: Engine, st: State, ds: string, scan: ScanSpec, binding: string): Result<State> {
    var t :- e.fetch(st.pins, ds, scan);
    Ok(st.(env := st.env[binding := B.Rel(t)]))
  }

  function KeysOver(env: Env, name: string, key: string): Result<Table> {
    var t :- Relation(env, name);
    DistinctKeys(t, key)
  }

  function CollectStep(st: State, input: string, key: string, binding: string): Result<State> {
    var keys :- KeysOver(st.env, input, key);
    Ok(st.(env := st.env[binding := B.KeySetOf(keys)]))
  }

  function InjectedOver(e: Engine, env: Env, pins: Pins, step: Step): Result<Table>
    requires step.InjectedScan?
  {
    var keys :- KeysNamed(env, step.keysFrom);
    var others :- ReadExtras(env, step.extras);
    e.deliver(pins, step.datasource, step.scan, step.injectColumn, keys, step.ndv,
              InList(step.injectColumn, KeyValues(keys)), ExtraFilters(others))
  }

  function InjectedStep(e: Engine, st: State, step: Step): Result<State>
    requires step.InjectedScan?
  {
    var t :- InjectedOver(e, st.env, st.pins, step);
    Ok(st.(env := st.env[step.binding := B.Rel(t)]))
  }

  function ShipStep(e: Engine, st: State, ds: string, input: string, table: string): Result<State> {
    var t :- Borrow(st.env, input);
    var pins :- ShipTable(e.world, st.pins, ds, table, t);
    Ok(st.(pins := pins))
  }

  /** A merge's result over an environment. */
  function Merged(w: World, fragment: Fragment, inputs: seq<MergeInput>, env: Env): Result<Table> {
    var tables :- ReadInputs(env, inputs);
    Evaluate(w, fragment, tables)
  }

  function MergeStep(e: Engine, fragments: map<string, Fragment>, st: State, fragment: string, inputs: seq<MergeInput>,
                     binding: string): Result<State>
  {
    if fragment !in fragments then Err(UnknownFragment(fragment))
    else
      var t :- Merged(e.world, fragments[fragment], inputs, st.env);
      Ok(st.(env := st.env[binding := B.Rel(t)]))
  }

  function ApplyStep(e: Engine, fragments: map<string, Fragment>, step: Step, st: State): Result<State>
    requires !step.Return?
  {
    match step
    case SourceScan(ds, scan, binding) => ScanStep(e, st, ds, scan, binding)
    case CollectDistinct(input, key, _, binding) => CollectStep(st, input, key, binding)
    case InjectedScan(_, _, _, _, _, _, _) => InjectedStep(e, st, step)
    case Ship(ds, input, table) => ShipStep(e, st, ds, input, table)
    case Merge(fragment, inputs, binding) => MergeStep(e, fragments, st, fragment, inputs, binding)
  }

  /** The relation a plan returns, or the first error its steps run into. */
  function Run(e: Engine, fragments: map<string, Fragment>, steps: seq<Step>, st: State): Result<Table> {
    if steps == [] then Err(NoReturn)
    else if steps[0].Return? then Relation(st.env, steps[0].input)
    else
      var next :- ApplyStep(e, fragments, steps[0], st);
      Run(e, fragments, steps[1..], next)
  }

  predicate GoesOn(steps: seq<Step>) {
    forall k :: 0 <= k < |steps| ==> !steps[k].Return?
  }

  /** The state some steps lead to. */
  function Follow(e: Engine, fragments: map<string, Fragment>, steps: seq<Step>, st: State): Result<State>
    requires GoesOn(steps)
  {
    if steps == [] then Ok(st)
    else
      var next :- ApplyStep(e, fragments, steps[0], st);
      Follow(e, fragments, steps[1..], next)
  }

  lemma {:induction false} FollowOne(e: Engine, fragments: map<string, Fragment>, steps: seq<Step>, last: Step,
                                     st: State)
    requires GoesOn(steps) && !last.Return?
    ensures GoesOn(steps + [last])
    ensures Follow(e, fragments, steps + [last], st) ==
              (match Follow(e, fragments, steps, st)
               case Ok(next) => ApplyStep(e, fragments, last, next)
               case Err(error) => Err(error))
  {
    if steps == [] {
      assert steps + [last] == [last] && [last][1..] == [];
    } else {
      assert (steps + [last])[0] == steps[0] && (steps + [last])[1..] == steps[1..] + [last];
      var next := ApplyStep(e, fragments, steps[0], st);
      if next.Ok? {
        FollowOne(e, fragments, steps[1..], last, next.value);
      }
    }
  }

  // --- what the steps read ---------------------------------------------------------------------------

  /** A merge reads its inputs in order, each under its own table name, and fails exactly if one has no relation. */
  lemma {:induction false} InputsRead(env: Env, inputs: seq<MergeInput>)
    ensures ReadInputs(env, inputs).Ok? <==>
              forall k :: 0 <= k < |inputs| ==> inputs[k].binding in env && env[inputs[k].binding].Rel?
    ensures ReadInputs(env, inputs).Ok? ==> forall k :: 0 <= k < |inputs| ==>
              ReadInputs(env, inputs).value[k] == (inputs[k].table, env[inputs[k].binding].t)
  {
    if inputs != [] {
      var init := inputs[..|inputs| - 1];
      InputsRead(env, init);
      assert forall k :: 0 <= k < |init| ==> init[k] == inputs[k];
    }
  }

  /** An injected scan reads its extra key sets in order, each for its own column. */
  lemma {:induction false} ExtrasRead(env: Env, extras: seq<ExtraInjection>)
    ensures ReadExtras(env, extras).Ok? <==>
              forall k :: 0 <= k < |extras| ==> extras[k].keysFrom in env && env[extras[k].keysFrom].KeySetOf?
    ensures ReadExtras(env, extras).Ok? ==>
              && |ReadExtras(env, extras).value| == |extras|
              && forall k :: 0 <= k < |extras| ==>
                   ReadExtras(env, extras).value[k] == KeySet(extras[k].column, env[extras[k].keysFrom].t)
  {
    if extras != [] {
      var init := extras[..|extras| - 1];
      ExtrasRead(env, init);
      assert forall k :: 0 <= k < |init| ==> init[k] == extras[k];
    }
  }

  lemma {:induction false} NamedFirst(tables: seq<(string, Table)>, name: string)
    ensures match Named(tables, name)
            case None => forall k :: 0 <= k < |tables| ==> tables[k].0 != name
            case Some(t) => exists k :: 0 <= k < |tables| && tables[k] == (name, t)
                                        && forall m :: 0 <= m < k ==> tables[m].0 != name
  {
    if tables != [] && tables[0].0 != name {
      NamedFirst(tables[1..], name);
      if Named(tables, name).Some? {
        var k :| 0 <= k < |tables[1..]| && tables[1..][k] == (name, Named(tables, name).value)
                 && forall m :: 0 <= m < k ==> tables[1..][m].0 != name;
        assert tables[k + 1] == tables[1..][k];
        forall m | 0 <= m < k + 1 ensures tables[m].0 != name {
          assert m > 0 ==> tables[m] == tables[1..][m - 1];
        }
      } else {
        assert forall k :: 0 < k < |tables| ==> tables[k] == tables[1..][k - 1];
      }
    }
  }

  /** Guarding one relation gives it unchanged when no two of its rows agree on every key, and fails otherwise. */
  lemma {:induction false} GuardsOne(w: World, keys: seq<IrExpr>, inputs: seq<MergeInput>, env: Env)
    requires |inputs| == 1 && inputs[0].table == "in_0" && Relation(env, inputs[0].binding).Ok?
    ensures var t := Relation(env, inputs[0].binding).value;
            Merged(w, SingleRowGuard(keys), inputs, env) ==
              if forall i, j :: 0 <= i < j < |t.rows| ==> !SameKeys(w, keys, t.schema, t.rows[i], t.rows[j])
              then Ok(t) else Err(GuardViolated)
  {
    var t := Relation(env, inputs[0].binding).value;
    InputsRead(env, inputs);
    GuardIsSingleValued(w, keys, t);
    GuardPassesIff(w, keys, t);
    assert ReadInputs(env, inputs).value == [("in_0", t)];
  }

  /** So does a guarding step of a plan, which binds the relation or ends the run. */
  lemma {:induction false} GuardingMerge(e: Engine, fragments: map<string, Fragment>, st: State, step: Step)
    requires step.Merge? && step.fragment in fragments && fragments[step.fragment].SingleRowGuard?
    requires |step.inputs| == 1 && step.inputs[0].table == "in_0" && Relation(st.env, step.inputs[0].binding).Ok?
    ensures var t := Relation(st.env, step.inputs[0].binding).value;
            var keys := fragments[step.fragment].guardKeys;
            ApplyStep(e, fragments, step, st) ==
              if forall i, j :: 0 <= i < j < |t.rows| ==> !SameKeys(e.world, keys, t.schema, t.rows[i], t.rows[j])
              then Ok(st.(env := st.env[step.binding := B.Rel(t)])) else Err(GuardViolated)
  {
    GuardsOne(e.world, fragments[step.fragment].guardKeys, step.inputs, st.env);
  }

  /** A step that misreads a binding or names no fragment ends the run in the error that says so. */
  lemma {:induction false} Misreads(e: Engine, fragments: map<string, Fragment>, step: Step, st: State)
    requires !step.Return?
    ensures step.CollectDistinct? && step.input !in st.env ==>
              ApplyStep(e, fragments, step, st) == Err(UnknownBinding(step.input))
    ensures step.CollectDistinct? && step.input in st.env && st.env[step.input].KeySetOf? ==>
              ApplyStep(e, fragments, step, st) == Err(NotARelation(step.input))
    ensures step.InjectedScan? && !(step.keysFrom in st.env && st.env[step.keysFrom].KeySetOf?) ==>
              ApplyStep(e, fragments, step, st) == Err(NotKeys(step.keysFrom))
    ensures step.Ship? && step.input !in st.env ==>
              ApplyStep(e, fragments, step, st) == Err(UnknownBinding(step.input))
    ensures step.Ship? && step.input in st.env && st.env[step.input].KeySetOf? ==>
              ApplyStep(e, fragments, step, st) == Err(NotResident(step.input))
    ensures step.Merge? && step.fragment !in fragments ==>
              ApplyStep(e, fragments, step, st) == Err(UnknownFragment(step.fragment))
  {
  }

  /** The first input without a relation decides a merge's error, and so does the first extra set without keys. */
  lemma {:induction false} FirstMisread(env: Env, inputs: seq<MergeInput>, k: nat)
    requires k < |inputs| && Relation(env, inputs[k].binding).Err?
    requires forall j :: 0 <= j < k ==> Relation(env, inputs[j].binding).Ok?
    ensures ReadInputs(env, inputs) ==
              if inputs[k].binding in env then Err(NotARelation(inputs[k].binding))
              else Err(UnknownBinding(inputs[k].binding))
  {
    var init := inputs[..|inputs| - 1];
    if k < |init| {
      FirstMisread(env, init, k);
    } else {
      InputsRead(env, init);
      assert forall j :: 0 <= j < |init| ==> Relation(env, init[j].binding).Ok?;
    }
  }

  /** A plan that goes on to its end without a return has no result. */
  lemma {:induction false} RunsOut(e: Engine, fragments: map<string, Fragment>, steps: seq<Step>, st: State)
    requires GoesOn(steps)
    ensures Run(e, fragments, steps, st) ==
              match Follow(e, fragments, steps, st)
              case Ok(_) => Err(NoReturn)
              case Err(error) => Err(error)
  {
    if steps != [] {
      var next := ApplyStep(e, fragments, steps[0], st);
      if next.Ok? {
        RunsOut(e, fragments, steps[1..], next.value);
      }
    }
  }

  /** A guard without an input to guard is refused as malformed. */
  lemma {:induction false} NothingToGuard(w: World, keys: seq<IrExpr>, tables: seq<(string, Table)>)
    requires forall k :: 0 <= k < |tables| ==> tables[k].0 != "in_0"
    ensures Evaluate(w, SingleRowGuard(keys), tables) == Err(BadSpec)
  {
    NamedFirst(tables, "in_0");
  }

  /** A ship adds its relation to what is shipped, and changes no binding. */
  lemma {:induction false} ShipAdds(e: Engine, st: State, ds: string, input: string, table: string)
    requires ShipStep(e, st, ds, input, table).Ok?
    ensures ds in e.world.registry && input in st.env && st.env[input].Rel?
    ensures var after := ShipStep(e, st, ds, input, table).value;
            var uri := e.world.registry[ds].uri;
            && after.env == st.env && uri in after.pins
            && after.pins[uri] == (if uri in st.pins then st.pins[uri] else map[])[table := st.env[input].t]
            && after.pins - {uri} == st.pins - {uri}
  {
  }

  /** A relation is shipped exactly to a registered DuckDB path that can ingest each of its columns. */
  lemma {:induction false} ShipsIff(w: World, pins: Pins, ds: string, table: string, t: Table)
    ensures var r := ShipTable(w, pins, ds, table, t);
            if ds !in w.registry then r == Err(NotRegistered(ds))
            else if w.registry[ds].kind != DuckDb then r == Err(ShipTarget(ds))
            else if exists k :: 0 <= k < |t.schema| && t.schema[k].dtype.OtherType? then r == Err(BadSpec)
            else
              && r.Ok? && w.registry[ds].uri in r.value && r.value.Keys == pins.Keys + {w.registry[ds].uri}
              && (forall uri :: uri in pins && uri != w.registry[ds].uri ==> r.value[uri] == pins[uri])
              && (forall n :: n in r.value[w.registry[ds].uri] <==>
                    n == table || (w.registry[ds].uri in pins && n in pins[w.registry[ds].uri]))
              && (forall n :: n in r.value[w.registry[ds].uri] ==>
                    r.value[w.registry[ds].uri][n] == if n == table then t else pins[w.registry[ds].uri][n])
  {
  }

  // --- plans whose reads are all in order -----------------------------------------------------------

  datatype Kind = RelationKind | KeysKind

  predicate InputsAre(types: map<string, Kind>, inputs: seq<MergeInput>) {
    forall k :: 0 <= k < |inputs| ==> inputs[k].binding in types && types[inputs[k].binding] == RelationKind
  }

  predicate ExtrasAre(types: map<string, Kind>, extras: seq<ExtraInjection>) {
    forall k :: 0 <= k < |extras| ==> extras[k].keysFrom in types && types[extras[k].keysFrom] == KeysKind
  }

  /** Every name is written before it is read and read as what was written, and the plan returns a relation. */
  predicate WellFormed(fragments: map<string, Fragment>, steps: seq<Step>, types: map<string, Kind>) {
    if steps == [] then false
    else
      match steps[0]
      case SourceScan(_, _, binding) => WellFormed(fragments, steps[1..], types[binding := RelationKind])
      case CollectDistinct(input, _, _, binding) =>
        && input in types && types[input] == RelationKind
        && WellFormed(fragments, steps[1..], types[binding := KeysKind])
      case InjectedScan(_, _, _, keysFrom, binding, _, extras) =>
        && keysFrom in types && types[keysFrom] == KeysKind && ExtrasAre(types, extras)
        && WellFormed(fragments, steps[1..], types[binding := RelationKind])
      case Ship(_, input, _) =>
        && input in types && types[input] == RelationKind && WellFormed(fragments, steps[1..], types)
      case Merge(fragment, inputs, binding) =>
        && fragment in fragments && InputsAre(types, inputs)
        && WellFormed(fragments, steps[1..], types[binding := RelationKind])
      case Return(input) => input in types && types[input] == RelationKind
  }

  /** Errors about bindings and fragments themselves, as opposed to sources, data or resources. */
  predicate Structural(e: Error) {
    e.UnknownBinding? || e.NotLazy? || e.NotARelation? || e.NotResident? || e.NotKeys? || e.UnknownFragment?
      || e.NoReturn?
  }

  ghost predicate Typed(env: Env, types: map<string, Kind>) {
    forall n :: n in types ==> n in env && (types[n] == KeysKind <==> env[n].KeySetOf?)
  }

  lemma {:induction false} TypedInputsRead(env: Env, types: map<string, Kind>, inputs: seq<MergeInput>)
    requires Typed(env, types) && InputsAre(types, inputs)
    ensures ReadInputs(env, inputs).Ok?
  {
    if inputs != [] {
      TypedInputsRead(env, types, inputs[..|inputs| - 1]);
    }
  }

  lemma {:induction false} TypedExtrasRead(env: Env, types: map<string, Kind>, extras: seq<ExtraInjection>)
    requires Typed(env, types) && ExtrasAre(types, extras)
    ensures ReadExtras(env, extras).Ok?
  {
    if extras != [] {
      TypedExtrasRead(env, types, extras[..|extras| - 1]);
    }
  }

  /** No answer of a source is an error about bindings. */
  lemma {:induction false} ScanErrors(w: World, pins: Pins, ds: string, scan: ScanSpec, extra: Option<seq<Pred>>)
    ensures FetchScan(w, pins, ds, scan, extra).Err? ==> !Structural(FetchScan(w, pins, ds, scan, extra).error)
  {
  }

  lemma {:induction false} ParallelErrors(w: World, ds: string, scan: ScanSpec)
    ensures ParallelScan(w, ds, scan).Err? ==> !Structural(ParallelScan(w, ds, scan).error)
  {
    if ds in w.registry && scan.table.Some? && w.registry[ds].kind == Postgres {
      var found := w.pages(w.registry[ds], scan.schema, scan.table.value);
      if found.Some? {
        RangeErrors(w, w.registry[ds], scan, PlannedRanges(found.value));
      }
    }
  }

  lemma {:induction false} SourceErrors(w: World, pins: Pins, ds: string, scan: ScanSpec)
    ensures FetchSource(w, pins, ds, scan).Err? ==> !Structural(FetchSource(w, pins, ds, scan).error)
  {
    ScanErrors(w, pins, ds, scan, None);
    ParallelErrors(w, ds, scan);
  }

  lemma {:induction false} RangeErrors(w: World, spec: DsSpec, scan: ScanSpec, ranges: seq<(nat, nat)>)
    requires scan.table.Some? && ranges != []
    ensures ReadRangesOf(w, spec, scan, ranges).Err? ==> ReadRangesOf(w, spec, scan, ranges).error == SourceRefused
  {
    GatherErrors(w, spec, scan, ranges);
    var gathered := GatherPartitions(w, spec, scan, ranges);
    if gathered.Ok? {
      P.PartErrors(T.DriverFields(gathered.value.schema),
        T.DriverParts(gathered.value.schema, w.cut, gathered.value.heaps));
    }
  }

  lemma {:induction false} GatherErrors(w: World, spec: DsSpec, scan: ScanSpec, ranges: seq<(nat, nat)>)
    requires scan.table.Some? && ranges != []
    ensures GatherPartitions(w, spec, scan, ranges).Err? ==>
              GatherPartitions(w, spec, scan, ranges).error == SourceRefused
  {
    if |ranges| > 1 {
      GatherErrors(w, spec, scan, ranges[1..]);
    }
  }

  lemma {:induction false} UnselectiveErrors(w: World, pins: Pins, spec: DsSpec, ds: string, scan: ScanSpec)
    ensures var r := UnselectiveProbe(w, pins, spec, ds, scan); r.Err? ==> !Structural(r.error)
  {
    ParallelErrors(w, ds, scan);
    ScanErrors(w, pins, ds, scan, None);
  }

  lemma {:induction false} TempTableErrors(w: World, spec: DsSpec, scan: ScanSpec, keys: Table, column: string)
    ensures var r := TempTableProbe(w, spec, scan, keys, column); r.Err? ==> !Structural(r.error)
  {
  }

  lemma {:induction false} DeliverErrors(w: World, pins: Pins, ds: string, scan: ScanSpec, column: string, keys: Table,
                                         ndv: Option<nat>, primary: Pred, extras: seq<Pred>)
    ensures var r := Deliver(w, pins, ds, scan, column, keys, ndv, primary, extras); r.Err? ==> !Structural(r.error)
  {
    if ds in w.registry {
      var delivery := Chosen(w, w.registry[ds], scan, column, keys, ndv);
      if delivery == WholeProbe {
        UnselectiveErrors(w, pins, w.registry[ds], ds, scan);
      } else if delivery == SemiJoin {
        TempTableErrors(w, w.registry[ds], scan, keys, column);
      } else {
        ScanErrors(w, pins, ds, scan, FilterOf(delivery, primary, extras));
      }
    }
  }

  /** The engine's reads fail for a source's reasons, never for one about bindings. */
  ghost predicate ReadsFailPlainly(e: Engine) {
    && (forall pins: Pins, ds, scan :: e.fetch(pins, ds, scan).Err? ==> !Structural(e.fetch(pins, ds, scan).error))
    && (forall pins: Pins, ds, scan, column, keys, ndv, primary, extras ::
          e.deliver(pins, ds, scan, column, keys, ndv, primary, extras).Err? ==>
            !Structural(e.deliver(pins, ds, scan, column, keys, ndv, primary, extras).error))
  }

  lemma {:induction false} ConnectorsFailPlainly(w: World)
    ensures ReadsFailPlainly(EngineOf(w))
  {
    var e := EngineOf(w);
    forall pins: Pins, ds, scan
      ensures e.fetch(pins, ds, scan).Err? ==> !Structural(e.fetch(pins, ds, scan).error)
    {
      SourceErrors(Now(w, pins), pins, ds, scan);
    }
    forall pins: Pins, ds, scan, column, keys, ndv, primary, extras
      ensures e.deliver(pins, ds, scan, column, keys, ndv, primary, extras).Err? ==>
                !Structural(e.deliver(pins, ds, scan, column, keys, ndv, primary, extras).error)
    {
      DeliverErrors(Now(w, pins), pins, ds, scan, column, keys, ndv, primary, extras);
    }
  }

  /** One step of a well-formed plan does not misread, and leaves every written name as what it was written. */
  lemma {:induction false} StepKeepsTypes(e: Engine, fragments: map<string, Fragment>, steps: seq<Step>, st: State,
                                          types: map<string, Kind>)
    returns (after: map<string, Kind>)
    requires ReadsFailPlainly(e)
    requires WellFormed(fragments, steps, types) && Typed(st.env, types) && !steps[0].Return?
    ensures var next := ApplyStep(e, fragments, steps[0], st);
            if next.Ok? then WellFormed(fragments, steps[1..], after) && Typed(next.value.env, after)
            else !Structural(next.error)
  {
    after := types;
    match steps[0]
    case SourceScan(_, _, binding) => after := types[binding := RelationKind];
    case CollectDistinct(_, _, _, binding) => after := types[binding := KeysKind];
    case InjectedScan(_, _, _, _, binding, _, _) =>
      InjectedStepErrors(e, st, types, steps[0]);
      after := types[binding := RelationKind];
    case Ship(_, _, _) =>
    case Merge(fragment, inputs, binding) =>
      MergedErrors(e.world, fragments[fragment], inputs, st.env, types);
      after := types[binding := RelationKind];
  }

  lemma {:induction false} InjectedStepErrors(e: Engine, st: State, types: map<string, Kind>, step: Step)
    requires ReadsFailPlainly(e)
    requires step.InjectedScan? && Typed(st.env, types) && ExtrasAre(types, step.extras)
    requires step.keysFrom in types && types[step.keysFrom] == KeysKind
    ensures InjectedOver(e, st.env, st.pins, step).Err? ==> !Structural(InjectedOver(e, st.env, st.pins, step).error)
  {
    TypedExtrasRead(st.env, types, step.extras);
  }

  lemma {:induction false} MergedErrors(w: World, fragment: Fragment, inputs: seq<MergeInput>, env: Env,
                                        types: map<string, Kind>)
    requires Typed(env, types) && InputsAre(types, inputs)
    ensures Merged(w, fragment, inputs, env).Err? ==> !Structural(Merged(w, fragment, inputs, env).error)
  {
    TypedInputsRead(env, types, inputs);
  }

  /** A well-formed plan never ends in an error about its bindings or fragments. */
  lemma {:induction false} WellFormedNeverMisreads(e: Engine, fragments: map<string, Fragment>, steps: seq<Step>,
                                                   st: State, types: map<string, Kind>)
    requires ReadsFailPlainly(e) && WellFormed(fragments, steps, types) && Typed(st.env, types)
    ensures Run(e, fragments, steps, st).Err? ==> !Structural(Run(e, fragments, steps, st).error)
    decreases |steps|
  {
    if !steps[0].Return? {
      var after := StepKeepsTypes(e, fragments, steps, st, types);
      var next := ApplyStep(e, fragments, steps[0], st);
      if next.Ok? {
        WellFormedNeverMisreads(e, fragments, steps[1..], next.value, after);
      }
    }
  }

  // --- which bindings a step reads -----------------------------------------------------------------

  function InputReads(inputs: seq<MergeInput>): multiset<string> {
    if inputs == [] then multiset{}
    else multiset{inputs[0].binding} + InputReads(inputs[1..])
  }

  function ExtraReads(extras: seq<ExtraInjection>): multiset<string> {
    if extras == [] then multiset{}
    else multiset{extras[0].keysFrom} + ExtraReads(extras[1..])
  }

  function StepReads(step: Step): multiset<string> {
    match step
    case SourceScan(_, _, _) => multiset{}
    case CollectDistinct(input, _, _, _) => multiset{input}
    case InjectedScan(_, _, _, keysFrom, _, _, extras) => multiset{keysFrom} + ExtraReads(extras)
    case Ship(_, input, _) => multiset{input}
    case Merge(_, inputs, _) => InputReads(inputs)
    case Return(input) => multiset{input}
  }

  /** The reads still ahead of a suffix of the plan, counted per name. */
  function ReadsAhead(steps: seq<Step>): multiset<string> {
    if steps == [] then multiset{} else StepReads(steps[0]) + ReadsAhead(steps[1..])
  }

  /** Two environments that agree on every name read ahead. */
  ghost predicate Agree(held: Env, env: Env, ahead: multiset<string>) {
    && (forall n :: n in held ==> n in env && held[n] == env[n])
    && (forall n :: n in env && n in ahead ==> n in held)
  }

  lemma {:induction false} NameAgrees(held: Env, env: Env, name: string, ahead: multiset<string>)
    requires Agree(held, env, ahead) && ahead[name] > 0
    ensures Relation(held, name) == Relation(env, name)
    ensures KeysNamed(held, name) == KeysNamed(env, name)
    ensures name in held <==> name in env
  {
  }

  /** Binding a name in both environments keeps them in agreement. */
  lemma {:induction false} AgreeBind(held: Env, env: Env, ahead: multiset<string>, name: string, m: B.Meaning)
    requires Agree(held, env, ahead)
    ensures Agree(held[name := m], env[name := m], ahead)
  {
  }

  /** Fewer reads ahead ask for less, and agreement is transitive. */
  lemma {:induction false} AgreeLater(after: Env, held: Env, env: Env, done: multiset<string>, later: multiset<string>)
    requires Agree(held, env, done + later) && Agree(after, held, later)
    ensures Agree(after, env, later)
  {
    assert forall n :: n in later ==> n in done + later;
  }

  lemma {:induction false} InputsAgree(held: Env, env: Env, inputs: seq<MergeInput>, ahead: multiset<string>)
    requires Agree(held, env, ahead) && InputReads(inputs) <= ahead
    ensures ReadInputs(held, inputs) == ReadInputs(env, inputs)
  {
    if inputs != [] {
      var init, last := inputs[..|inputs| - 1], inputs[|inputs| - 1];
      InputReadsSnoc(inputs);
      assert InputReads(init) <= ahead;
      assert InputReads(inputs)[last.binding] > 0;
      InputsAgree(held, env, init, ahead);
      NameAgrees(held, env, last.binding, ahead);
    }
  }

  lemma {:induction false} InputReadsSnoc(inputs: seq<MergeInput>)
    requires inputs != []
    ensures InputReads(inputs) == InputReads(inputs[..|inputs| - 1]) + multiset{inputs[|inputs| - 1].binding}
  {
    if |inputs| == 1 {
      assert InputReads(inputs[1..]) == multiset{};
    } else {
      InputReadsSnoc(inputs[1..]);
      assert inputs[1..][..|inputs| - 2] == inputs[..|inputs| - 1][1..];
    }
  }

  lemma {:induction false} ExtrasAgree(held: Env, env: Env, extras: seq<ExtraInjection>, ahead: multiset<string>)
    requires Agree(held, env, ahead) && ExtraReads(extras) <= ahead
    ensures ReadExtras(held, extras) == ReadExtras(env, extras)
  {
    if extras != [] {
      var init, last := extras[..|extras| - 1], extras[|extras| - 1];
      ExtraReadsSnoc(extras);
      assert ExtraReads(init) <= ahead;
      assert ExtraReads(extras)[last.keysFrom] > 0;
      ExtrasAgree(held, env, init, ahead);
      NameAgrees(held, env, last.keysFrom, ahead);
    }
  }

  lemma {:induction false} ExtraReadsSnoc(extras: seq<ExtraInjection>)
    requires extras != []
    ensures ExtraReads(extras) == ExtraReads(extras[..|extras| - 1]) + multiset{extras[|extras| - 1].keysFrom}
  {
    if |extras| == 1 {
      assert ExtraReads(extras[1..]) == multiset{};
    } else {
      ExtraReadsSnoc(extras[1..]);
      assert extras[1..][..|extras| - 2] == extras[..|extras| - 1][1..];
    }
  }
}
