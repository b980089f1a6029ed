/** The interpreter: it walks the steps over two mutable maps and changes the form of bindings as it goes. */
module Interpreter {
  import opened Outcomes
  import opened Ir
  import opened Relations
  import opened Sources
  import opened Injection
  import opened Bindings
  import opened Eviction
  import opened Store
  import K = Keys
  import R = Reference
  import opened Sessions

  const REGION_SPILL_JOIN_INPUT_BYTES: nat := 8 * 1024 * 1024 * 1024

  /** What a run of evictions starts from. */
  datatype Before = Before(held: Held, files: Disk, meaning: map<string, Meaning>)

  /** How one execution of a composed region ends. */
  datatype Attempt =
    | Done(b: Batches)
    | PoolExhausted(collecting: bool)
    | Broken

  /** An operator, not the accumulation of the result, ran out of pool memory. */
  predicate RetryWithSpillableJoins(a: Attempt) {
    a.PoolExhausted? && !a.collecting
  }

  /** An Arrow result as it arrives: cut into batches of any size, in buffers of any size. */
  method Arrive(t: Table) returns (b: Batches)
    ensures TableOf(b) == t
  {
    var batches: seq<Batch> := [];
    var taken := 0;
    while taken < |t.rows|
      invariant 0 <= taken <= |t.rows| && RowsOf(batches) == t.rows[..taken]
    {
      var next: int, bytes: int := *, *;
      next := if next <= taken || |t.rows| < next then taken + 1 else next;
      batches := batches + [Batch(t.rows[taken..next], if bytes < 0 then 0 else bytes)];
      assert batches[..|batches| - 1] + [batches[|batches| - 1]] == batches;
      assert t.rows[..taken] + t.rows[taken..next] == t.rows[..next];
      taken := next;
    }
    assert t.rows[..taken] == t.rows;
    return Batches(t.schema, batches);
  }

  method BatchesBytes(b: Batches) returns (total: nat)
    ensures total == BytesOf(b.batches)
    ensures forall i :: 0 <= i < |b.batches| ==> b.batches[i].bytes <= total
  {
    total := 0;
    for i := 0 to |b.batches|
      invariant total == BytesOf(b.batches[..i])
      invariant forall j :: 0 <= j < i ==> b.batches[j].bytes <= total
    {
      total := total + b.batches[i].bytes;
      assert b.batches[..i + 1][..i] == b.batches[..i];
    }
    assert b.batches[..|b.batches|] == b.batches;
  }

  method BumpInputs(counts: map<string, nat>, inputs: seq<MergeInput>) returns (bumped: map<string, nat>)
    ensures forall n :: UsesIn(bumped, n) == UsesIn(counts, n) + R.InputReads(inputs)[n]
  {
    bumped := counts;
    for k := 0 to |inputs|
      invariant forall n :: UsesIn(bumped, n) + R.InputReads(inputs[k..])[n] ==
                  UsesIn(counts, n) + R.InputReads(inputs)[n]
    {
      assert inputs[k..][0] == inputs[k] && inputs[k..][1..] == inputs[k + 1..];
      bumped := Bump(bumped, inputs[k].binding);
    }
  }

  method BumpExtras(counts: map<string, nat>, extras: seq<ExtraInjection>) returns (bumped: map<string, nat>)
    ensures forall n :: UsesIn(bumped, n) == UsesIn(counts, n) + R.ExtraReads(extras)[n]
  {
    bumped := counts;
    for k := 0 to |extras|
      invariant forall n :: UsesIn(bumped, n) + R.ExtraReads(extras[k..])[n] ==
                  UsesIn(counts, n) + R.ExtraReads(extras)[n]
    {
      assert extras[k..][0] == extras[k] && extras[k..][1..] == extras[k + 1..];
      bumped := Bump(bumped, extras[k].keysFrom);
    }
  }

  method BumpStep(counts: map<string, nat>, step: Step) returns (bumped: map<string, nat>)
    ensures forall n :: UsesIn(bumped, n) == UsesIn(counts, n) + R.StepReads(step)[n]
  {
    match step
    case SourceScan(_, _, _) => bumped := counts;
    case Ship(_, input, _) => bumped := Bump(counts, input);
    case CollectDistinct(input, _, _, _) => bumped := Bump(counts, input);
    case InjectedScan(_, _, _, keysFrom, _, _, extras) => bumped := BumpExtras(Bump(counts, keysFrom), extras);
    case Merge(_, inputs, _) => bumped := BumpInputs(counts, inputs);
    case Return(input) => bumped := Bump(counts, input);
  }

  /** How many reads of each name the whole plan makes. */
  method BindingUseCounts(steps: seq<Step>) returns (counts: map<string, nat>)
    ensures forall n :: UsesIn(counts, n) == R.ReadsAhead(steps)[n]
  {
    counts := map[];
    for i := 0 to |steps|
      invariant forall n :: UsesIn(counts, n) + R.ReadsAhead(steps[i..])[n] == R.ReadsAhead(steps)[n]
    {
      assert steps[i..][0] == steps[i] && steps[i..][1..] == steps[i + 1..];
      counts := BumpStep(counts, steps[i]);
    }
  }

  function UsesIn(counts: map<string, nat>, n: string): nat {
    if n in counts then counts[n] else 0
  }

  function Bump(counts: map<string, nat>, n: string): map<string, nat> {
    counts[n := UsesIn(counts, n) + 1]
  }

  function SaturatingSub(a: nat, b: nat): nat {
    if a < b then 0 else a - b
  }

  /** One read fewer ahead, never below zero. */
  function NoteUse(counts: map<string, nat>, n: string): map<string, nat> {
    if n in counts then counts[n := SaturatingSub(counts[n], 1)] else counts
  }

  /** Whether every output name of a projection is unique. */
  predicate UniqueAliases(project: seq<Projection>) {
    forall i, j :: 0 <= i < j < |project| ==> project[i].alias != project[j].alias
  }

  /** The fragments executed on the spot: the guard, and a projection with repeated output names. */
  predicate Eager(fragment: Fragment) {
    match fragment
    case HashJoin(_, _, _, project) => !UniqueAliases(project)
    case NestedLoopJoin(_, _, project) => !UniqueAliases(project)
    case Project(project, _) => !UniqueAliases(project)
    case SingleRowGuard(_) => true
    case _ => false
  }

  datatype Registered = Registered(input: NamedInput, bytes: nat)

  class Interpreter {
    const engine: R.Engine
    const world: World := engine.world
    const fragments: map<string, Fragment>
    var bindings: map<string, Binding>
    var remaining: map<string, nat>
    var disk: Disk
    var nextFile: nat
    var pins: Pins
    /** Which of the requests to drivers, the disk and the memory pool fail, by their order, and how many were made. */
    const faults: nat -> bool
    var asked: nat

    /** Some request that was made has failed. */
    ghost predicate Faulty()
      reads this`asked
    {
      FailedWithin(faults, 0, asked)
    }

    /** An error that a failed request explains. */
    ghost predicate Failed(e: Error)
      reads this`asked
    {
      e == Backend && Faulty()
    }

    /** Whether the next request fails. */
    method Fails() returns (failed: bool)
      modifies this`asked
      ensures failed == faults(old(asked)) && asked == old(asked) + 1
      ensures failed ==> Faulty()
    {
      failed := faults(asked);
      asked := asked + 1;
    }

    /** Sound bindings within the resident budget, and unused file names from `nextFile` on. */
    ghost predicate Valid()
      reads this`bindings, this`disk, this`nextFile
    {
      WithinBudget(disk, bindings, nextFile)
    }

    ghost function Meaning(): map<string, Bindings.Meaning>
      reads this`bindings, this`disk
    {
      Meanings(world, disk, bindings)
    }

    ghost predicate HasRoomFor(incoming: nat)
      reads this`bindings
    {
      HasRoom(bindings, incoming)
    }

    constructor (engine: R.Engine, fragments: map<string, Fragment>, remaining: map<string, nat>, faults: nat -> bool)
      ensures this.engine == engine && this.fragments == fragments && this.remaining == remaining
      ensures this.faults == faults
      ensures bindings == map[] && pins == map[] && Valid()
    {
      this.engine := engine;
      this.fragments := fragments;
      this.bindings := map[];
      this.remaining := remaining;
      this.disk := map[];
      this.nextFile := 0;
      this.pins := map[];
      this.faults := faults;
      this.asked := 0;
    }

    /** Write a relation to a new file. A failed write can leave a partial file behind. */
    method SpillBinding(b: Batches) returns (r: Result<SpilledBinding>)
      requires forall f :: f in disk ==> f < nextFile
      modifies this`disk, this`nextFile, this`asked
      ensures Grows(old(disk), disk) && forall f :: f in disk ==> f < nextFile
      ensures r.Ok? ==>
                var s := r.value;
                && s.schema == b.schema && s.file in disk && disk[s.file] == b.batches
                && s.rows == |RowsOf(b.batches)| && s.bytes == BytesOf(b.batches)
      ensures r.Err? ==> Failed(r.error)
    {
      var file := nextFile;
      nextFile := nextFile + 1;
      var uncreated := Fails();
      if uncreated {
        return Err(Backend);
      }
      disk := disk[file := []];
      var rows := 0;
      for i := 0 to |b.batches|
        invariant file in disk && disk[file] == b.batches[..i] && rows == |RowsOf(b.batches[..i])|
        invariant Grows(old(disk), disk) && nextFile == file + 1 && forall f :: f in disk ==> f < nextFile
      {
        var unwritten := Fails();
        if unwritten {
          return Err(Backend);
        }
        disk := disk[file := disk[file] + [b.batches[i]]];
        rows := rows + |b.batches[i].rows|;
        assert b.batches[..i + 1][..i] == b.batches[..i];
      }
      assert b.batches[..|b.batches|] == b.batches;
      var bytes := BatchesBytes(b);
      return Ok(SpilledBinding(b.schema, file, rows, bytes));
    }

    /** The resident relations with their sizes, in whatever order the map lists them. */
    method ResidentSizes() returns (sized: seq<Sized>)
      ensures Lists(bindings, bindings.Keys, sized)
    {
      sized := [];
      var pending := bindings.Keys;
      while pending != {}
        invariant pending <= bindings.Keys
        invariant Lists(bindings, bindings.Keys - pending, sized)
        decreases pending
      {
        var n :| n in pending;
        if bindings[n].Materialized? {
          var bytes := BatchesBytes(bindings[n].b);
          assert forall x :: x in sized ==> x.name != n;
          sized := sized + [Sized(n, bytes)];
        }
        pending := pending - {n};
      }
    }

    /** Move one resident relation to disk. */
    method Evict(name: string) returns (ok: bool)
      requires Valid() && name in bindings && bindings[name].Materialized?
      modifies this`bindings, this`disk, this`nextFile, this`asked
      ensures Grows(old(disk), disk) && ResidentBytes(bindings) <= RESIDENT_BINDINGS_BUDGET
      ensures ok ==> Valid() && Meaning() == old(Meaning())
      ensures ok ==> bindings.Keys == old(bindings).Keys && bindings[name].Spilled?
      ensures ok ==> bindings == old(bindings)[name := bindings[name]]
      ensures ok ==> ResidentBytes(bindings) + Size(old(bindings)[name]) == ResidentBytes(old(bindings))
      ensures !ok ==> Faulty()
    {
      var taken := bindings[name].b;
      var r := SpillBinding(taken);
      if r.Err? {
        ResidentWithout(bindings, name);
        bindings := bindings - {name};
        return false;
      }
      SpillOne(world, old(disk), disk, bindings, name, r.value);
      bindings := bindings[name := Spilled(r.value)];
      return true;
    }

    /** The first `i` listed relations are on disk, nothing else has changed, and `resident` counts the rest. */
    ghost predicate Underway(before: Before, sorted: seq<Sized>, incoming: nat, i: nat, resident: nat)
      reads this`bindings, this`disk, this`nextFile
    {
      Moved(world, before, bindings, disk, nextFile, sorted, i) && Accounted(sorted, incoming, i, resident)
    }

    /** Spill the next of the listed resident relations. */
    method EvictNext(sorted: seq<Sized>, incoming: nat, i: nat, resident: nat, ghost before: Before)
      returns (ok: bool, left: nat)
      requires i < |sorted| && Underway(before, sorted, incoming, i, resident)
      requires resident + incoming > RESIDENT_BINDINGS_BUDGET
      modifies this`bindings, this`disk, this`nextFile, this`asked
      ensures Grows(before.files, disk) && ResidentBytes(bindings) <= RESIDENT_BINDINGS_BUDGET
      ensures ok ==> Underway(before, sorted, incoming, i + 1, left)
      ensures !ok ==> Faulty()
    {
      ghost var held := bindings;
      TakeNext(sorted, i);
      AccountNext(sorted, incoming, i, resident);
      assert sorted[i..][0] in sorted[i..];
      left := SaturatingSub(resident, sorted[i].bytes);
      ok := Evict(sorted[i].name);
      if ok {
        SpilledHead(before.held, held, sorted[i..], bindings[sorted[i].name].spilled);
        NamesNext(sorted, i);
      }
    }

    /** Spill listed relations from the front until `incoming` fits. */
    method EvictUntilRoom(sorted: seq<Sized>, incoming: nat, ghost before: Before) returns (ok: bool, left: nat)
      requires Underway(before, sorted, incoming, 0, TotalBytes(sorted))
      modifies this`bindings, this`disk, this`nextFile, this`asked
      ensures Grows(before.files, disk) && ResidentBytes(bindings) <= RESIDENT_BINDINGS_BUDGET
      ensures ok ==> Underway(before, sorted, incoming, EvictCount(sorted, incoming), left)
      ensures !ok ==> Faulty()
    {
      left := TotalBytes(sorted);
      var i: nat := 0;
      while i < |sorted| && left + incoming > RESIDENT_BINDINGS_BUDGET
        invariant Underway(before, sorted, incoming, i, left)
      {
        ok, left := EvictNext(sorted, incoming, i, left, before);
        if !ok {
          return;
        }
        i := i + 1;
      }
      AccountEnd(sorted, incoming, i, left);
      ok := true;
    }

    /** Spill the largest resident relations until `incoming` fits: the fewest evictions that make room. */
    method SpillForHeadroom(incoming: nat) returns (ok: bool, ghost sorted: seq<Sized>)
      requires Valid()
      modifies this`bindings, this`disk, this`nextFile, this`asked
      ensures Grows(old(disk), disk) && ResidentBytes(bindings) <= RESIDENT_BINDINGS_BUDGET
      ensures ok ==> Valid() && Meaning() == old(Meaning()) && OnlySpilled(old(bindings), bindings)
      ensures ok ==> HasRoomFor(incoming)
      ensures ok ==> forall chosen: set<string> ::
                ResidentBytes(old(bindings) - chosen) + incoming <= RESIDENT_BINDINGS_BUDGET ==>
                       |EvictedNames(old(bindings), bindings)| <= |chosen|
      ensures ok ==> Lists(old(bindings), old(bindings).Keys, sorted) && Descending(sorted) &&
                     EvictedNames(old(bindings), bindings) == NamesIn(sorted[..EvictCount(sorted, incoming)])
      ensures !ok ==> Faulty()
    {
      ghost var before := Before(bindings, disk, Meaning());
      var sized := ResidentSizes();
      var listed := SortDescending(sized);
      sorted := listed;
      StartEvicting(bindings, sorted, incoming);
      var left;
      ok, left := EvictUntilRoom(listed, incoming, before);
      if ok {
        NamesAtMost(sorted[..EvictCount(sorted, incoming)]);
        FewestEvicted(before.held, bindings, sorted, incoming);
        RoomMade(bindings, sorted, EvictCount(sorted, incoming), incoming);
      }
    }

    /** Evict to make room for a relation that is to be stored under a name. */
    method MakeRoom(name: string, incoming: nat) returns (ok: bool)
      requires Valid()
      modifies this`bindings, this`disk, this`nextFile, this`asked
      ensures Grows(old(disk), disk) && ResidentBytes(bindings) <= RESIDENT_BINDINGS_BUDGET
      ensures ok ==> Valid() && Meaning() == old(Meaning()) && LiveOrigins(bindings) == LiveOrigins(old(bindings))
      ensures ok ==> HasRoomFor(incoming) && FewestMoved(old(bindings), bindings - {name}, name, incoming)
      ensures !ok ==> Faulty()
    {
      ghost var sorted: seq<Sized>;
      ok, sorted := SpillForHeadroom(incoming);
      if ok {
        OnlySpilledKeepsOrigins(old(bindings), bindings);
        OthersMoved(old(bindings), bindings, name, incoming);
      }
    }

    /** Store a relation that alone exceeds the budget: write it to disk. */
    method StoreOnDisk(name: string, batches: Batches) returns (ok: bool)
      requires Valid()
      modifies this`bindings, this`disk, this`nextFile, this`asked
      ensures Grows(old(disk), disk) && ResidentBytes(bindings) <= RESIDENT_BINDINGS_BUDGET
      ensures ok ==> Valid() && Meaning() == old(Meaning())[name := Rel(TableOf(batches))]
      ensures ok ==> name in bindings && bindings[name].Spilled? &&
                     bindings[name].spilled.bytes == BytesOf(batches.batches)
      ensures ok ==> bindings - {name} == old(bindings) - {name} && LiveOrigins(bindings) <= LiveOrigins(old(bindings))
      ensures !ok ==> Faulty()
    {
      ghost var before := disk;
      var r := SpillBinding(batches);
      if r.Err? {
        return false;
      }
      StoreBinding(world, before, disk, bindings, name, Spilled(r.value));
      InsertBytes(bindings, name, Spilled(r.value));
      OthersStay(bindings, name, Spilled(r.value));
      bindings := bindings[name := Spilled(r.value)];
      return true;
    }

    /** Store a relation, evicting to make room; one larger than the whole budget goes to disk itself. */
    method StoreRelation(name: string, batches: Batches) returns (ok: bool)
      requires Valid()
      modifies this`bindings, this`disk, this`nextFile, this`asked
      ensures Grows(old(disk), disk) && ResidentBytes(bindings) <= RESIDENT_BINDINGS_BUDGET
      ensures ok ==> Valid() && Meaning() == old(Meaning())[name := Rel(TableOf(batches))]
      ensures ok ==> name in bindings &&
                     if BytesOf(batches.batches) > RESIDENT_BINDINGS_BUDGET
                     then bindings[name].Spilled? && bindings[name].spilled.bytes == BytesOf(batches.batches)
                     else bindings[name] == Materialized(batches)
      ensures ok ==> FewestMoved(old(bindings), bindings - {name}, name, BytesOf(batches.batches))
      ensures ok ==> LiveOrigins(bindings) <= LiveOrigins(old(bindings))
      ensures !ok ==> Faulty()
    {
      var incoming := BatchesBytes(batches);
      ok := MakeRoom(name, incoming);
      if !ok {
        return;
      }
      if incoming > RESIDENT_BINDINGS_BUDGET {
        ok := StoreOnDisk(name, batches);
        return;
      }
      StoreBinding(world, disk, disk, bindings, name, Materialized(batches));
      InsertBytes(bindings, name, Materialized(batches));
      OthersStay(bindings, name, Materialized(batches));
      bindings := bindings[name := Materialized(batches)];
      return true;
    }

    /** Take a binding out of the map as a lazy plan; one of another form stays. */
    method TakeLazy(name: string) returns (r: Result<LazyRegion>)
      requires Valid()
      modifies this`bindings
      ensures Valid()
      ensures r.Ok? <==> name in old(bindings) && old(bindings)[name].Lazy?
      ensures r.Ok? ==> r.value == old(bindings)[name].region && bindings == old(bindings) - {name}
      ensures r.Ok? ==> Meaning() == old(Meaning()) - {name}
      ensures r.Ok? ==> LiveOrigins(bindings) + Origins(r.value.plan) <= LiveOrigins(old(bindings))
      ensures r.Ok? ==> LiveOrigins(bindings) !! Origins(r.value.plan)
      ensures r.Err? ==> bindings == old(bindings) &&
                         r.error == if name in bindings then NotLazy(name) else UnknownBinding(name)
    {
      if name !in bindings {
        return Err(UnknownBinding(name));
      }
      if !bindings[name].Lazy? {
        return Err(NotLazy(name));
      }
      var region := bindings[name].region;
      SoundWithout(world, disk, bindings, name);
      RemovalBytes(bindings, name);
      bindings := bindings - {name};
      return Ok(region);
    }

    /** Run one composed region to completion; the joins it is run `with` do not change its result. */
    method ExecuteRegion(plan: Composed, spillableJoins: bool) returns (a: Attempt, ghost with: bool)
      modifies this`asked
      ensures with == spillableJoins
      ensures !a.Done? ==> Faulty()
      ensures a.Done? ==> TableOf(a.b) == EvalPlan(world, disk, plan)
      ensures asked == old(asked) + 1 && (a.Done? <==> !faults(old(asked)))
    {
      with := spillableJoins;
      var failed := Fails();
      if failed {
        var exhausted: bool, collecting: bool := *, *;
        return if exhausted then PoolExhausted(collecting) else Broken, with;
      }
      var b := Arrive(EvalPlan(world, disk, plan));
      return Done(b), with;
    }

    /**
     * Execute a region: with spillable joins at once when its measured input is over 8 GiB, else once more with them
     * when an operator ran out of pool memory. `tried` says which joins were tried, in order, and `first` how the
     * first attempt ended.
     */
    method RunRegion(region: LazyRegion) returns (a: Attempt, ghost first: Attempt, ghost tried: seq<bool>)
      modifies this`asked
      ensures !a.Done? ==> Faulty()
      ensures a.Done? ==> TableOf(a.b) == EvalPlan(world, disk, region.plan)
      ensures tried == if region.inputBytes > 8_589_934_592 then [true]
                       else if first.PoolExhausted? && !first.collecting then [false, true] else [false]
      ensures |tried| == 1 ==> a == first
      ensures asked == old(asked) + |tried| && (!faults(old(asked)) ==> |tried| == 1 && a.Done?)
    {
      if region.inputBytes > REGION_SPILL_JOIN_INPUT_BYTES {
        ghost var with;
        a, with := ExecuteRegion(region.plan, true);
        return a, a, [with];
      }
      ghost var with;
      a, with := ExecuteRegion(region.plan, false);
      first, tried := a, [with];
      if RetryWithSpillableJoins(a) {
        a, with := ExecuteRegion(region.plan, true);
        tried := tried + [with];
      }
    }

    /** Execute a lazy binding's plan and store its result in the plan's place; a no-op for other forms. */
    method ForceMaterialized(name: string) returns (ok: bool)
      requires Valid()
      modifies this`bindings, this`disk, this`nextFile, this`asked
      ensures Grows(old(disk), disk) && ResidentBytes(bindings) <= RESIDENT_BINDINGS_BUDGET
      ensures ok ==> Valid() && Meaning() == old(Meaning())
      ensures IsLazy(old(bindings), name) && ok ==> name in bindings && Settled(bindings[name])
      ensures !IsLazy(old(bindings), name) ==> ok && bindings == old(bindings)
      ensures ok ==> LiveOrigins(bindings) <= LiveOrigins(old(bindings))
      ensures !ok ==> Faulty()
    {
      if !IsLazy(bindings, name) {
        return true;
      }
      ok := ForceLazy(name);
    }

    method ForceLazy(name: string) returns (ok: bool)
      requires Valid() && IsLazy(bindings, name)
      modifies this`bindings, this`disk, this`nextFile, this`asked
      ensures Grows(old(disk), disk) && ResidentBytes(bindings) <= RESIDENT_BINDINGS_BUDGET
      ensures ok ==> Valid() && Meaning() == old(Meaning()) && name in bindings && Settled(bindings[name])
      ensures ok ==> LiveOrigins(bindings) <= LiveOrigins(old(bindings))
      ensures !ok ==> Faulty()
    {
      ghost var before := Meaning();
      assert before[name] == Rel(EvalPlan(world, disk, bindings[name].region.plan));
      var taken := TakeLazy(name);
      var attempt, _, _ := RunRegion(taken.value);
      if !attempt.Done? {
        return false;
      }
      PutBack(before, name);
      ok := StoreRelation(name, attempt.b);
    }

    /** Take a binding out of the map as materialized batches. */
    method TakeMaterialized(name: string) returns (r: Result<Batches>)
      requires Valid()
      modifies this`bindings
      ensures Valid() && bindings == old(bindings) - {name}
      ensures Meaning() == old(Meaning()) - {name} && LiveOrigins(bindings) <= LiveOrigins(old(bindings))
      ensures r == if name !in old(bindings) then Err(UnknownBinding(name))
                   else if old(bindings)[name].Materialized? then Ok(old(bindings)[name].b)
                   else Err(NotARelation(name))
    {
      r := if name !in bindings then Err(UnknownBinding(name))
           else if bindings[name].Materialized? then Ok(bindings[name].b)
           else Err(NotARelation(name));
      SoundWithout(world, disk, bindings, name);
      RemovalBytes(bindings, name);
      bindings := bindings - {name};
    }

    /** Consume a binding as materialized batches: the last reader takes it, earlier readers clone it. */
    method ConsumeMaterialized(name: string) returns (r: Result<Batches>)
      requires Valid()
      modifies this`bindings, this`remaining
      ensures Valid() && remaining == NoteUse(old(remaining), name)
      ensures Meaning() == if UsesIn(old(remaining), name) <= 1 then old(Meaning()) - {name} else old(Meaning())
      ensures LiveOrigins(bindings) <= LiveOrigins(old(bindings))
      ensures r == if name !in old(bindings) then Err(UnknownBinding(name))
                   else if old(bindings)[name].Materialized? then Ok(old(bindings)[name].b)
                   else Err(NotARelation(name))
    {
      var uses := UsesIn(remaining, name);
      remaining := NoteUse(remaining, name);
      if uses > 1 {
        return if name !in bindings then Err(UnknownBinding(name))
               else if bindings[name].Materialized? then Ok(bindings[name].b)
               else Err(NotARelation(name));
      }
      r := TakeMaterialized(name);
    }

    /** A spilled relation streams from its file; the last reader drops the map entry. */
    method RegisterSpilled(table: string, name: string) returns (r: Result<Registered>)
      requires Valid() && name in bindings && bindings[name].Spilled?
      modifies this`bindings, this`remaining, this`asked
      ensures Valid() && remaining == NoteUse(old(remaining), name)
      ensures r.Ok? ==> r.value.input.table == table && r.value.bytes == LeafBytes(r.value.input.plan)
      ensures r.Ok? ==> r.value.input.plan == Stream(old(bindings)[name].spilled)
      ensures r.Ok? ==> Handed(world, disk, old(Meaning()), Meaning(), old(bindings), bindings, name,
                UsesIn(old(remaining), name), r.value.input.plan)
      ensures r.Err? ==> Failed(r.error)
    {
      var uses := UsesIn(remaining, name);
      var spilled := bindings[name].spilled;
      remaining := NoteUse(remaining, name);
      StreamsOn(world, disk, bindings, nextFile, name, uses);
      if uses <= 1 {
        bindings := bindings - {name};
      }
      var unregistered := Fails();
      if unregistered {
        return Err(Backend);
      }
      return Ok(Registered(NamedInput(table, Stream(spilled)), spilled.bytes));
    }

    /**
     * Register one merge input: a lazy binding with no other reader is fused, a spilled one streams, and anything
     * else is materialized first.
     */
    method RegisterInput(table: string, name: string) returns (r: Result<Registered>)
      requires Valid()
      modifies this`bindings, this`remaining, this`disk, this`nextFile, this`asked
      ensures Grows(old(disk), disk) && ResidentBytes(bindings) <= RESIDENT_BINDINGS_BUDGET
      ensures r.Ok? ==> Valid() && remaining == NoteUse(old(remaining), name)
      ensures r.Ok? ==> r.value.input.table == table && Clamp(r.value.bytes) == Clamp(LeafBytes(r.value.input.plan))
      ensures r.Ok? ==> Handed(world, disk, old(Meaning()), Meaning(), old(bindings), bindings, name,
                UsesIn(old(remaining), name), r.value.input.plan)
      ensures r.Ok? ==> HandedAs(old(bindings), name, UsesIn(old(remaining), name), r.value.input.plan)
      ensures IsLazy(old(bindings), name) && UsesIn(old(remaining), name) <= 1 ==>
                r.Ok? && disk == old(disk) && asked == old(asked)
      ensures r.Err? ==> Failed(r.error) || R.Relation(old(Meaning()), name) == Err(r.error)
    {
      var uses := UsesIn(remaining, name);
      if uses <= 1 && name in bindings && bindings[name].Lazy? {
        remaining := NoteUse(remaining, name);
        var taken := TakeLazy(name);
        return Ok(Registered(NamedInput(table, taken.value.plan), taken.value.inputBytes));
      }
      if name in bindings && bindings[name].Spilled? {
        r := RegisterSpilled(table, name);
        return;
      }
      var forced := ForceMaterialized(name);
      if !forced {
        return Err(Backend);
      }
      if name in bindings && bindings[name].Spilled? {
        r := RegisterSpilled(table, name);
        return;
      }
      var b :- ConsumeMaterialized(name);
      var bytes := BatchesBytes(b);
      return Ok(Registered(NamedInput(table, Mem(b)), bytes));
    }

    /** Register input `i` of a merge after the ones before it. */
    method RegisterNext(inputs: seq<MergeInput>, i: nat, registered: seq<NamedInput>, inputBytes: nat,
                        ghost start: R.Env, ghost live: set<nat>, ghost later: multiset<string>)
      returns (r: Result<(seq<NamedInput>, nat)>)
      requires i < |inputs| && Valid() && Counts(remaining, R.InputReads(inputs[i..]) + later)
      requires Registering(world, disk, bindings, Meaning(), inputs, i, registered, inputBytes, start, live, later)
      modifies this`bindings, this`remaining, this`disk, this`nextFile, this`asked
      ensures Grows(old(disk), disk) && ResidentBytes(bindings) <= RESIDENT_BINDINGS_BUDGET
      ensures r.Ok? ==> Valid() && Counts(remaining, R.InputReads(inputs[i + 1..]) + later)
      ensures r.Ok? ==> Registering(world, disk, bindings, Meaning(), inputs, i + 1, r.value.0, r.value.1,
                                    start, live, later)
      ensures r.Err? ==> Failed(r.error) || R.ReadInputs(start, inputs) == Err(r.error)
    {
      ghost var before := disk;
      NextRead(start, Meaning(), remaining, inputs, i, later);
      var one := RegisterInput(inputs[i].table, inputs[i].binding);
      if one.Err? {
        if one.error != Backend {
          ReadFails(start, inputs, i);
        }
        return Err(one.error);
      }
      ReadSucceeds(start, inputs, i);
      Appended(world, before, disk, registered, one.value.input);
      return Ok((registered + [one.value.input], SatAdd(inputBytes, one.value.bytes)));
    }

    /** Register a merge's inputs in the order of its input map. */
    method RegisterInputs(inputs: seq<MergeInput>, ghost later: multiset<string>)
      returns (r: Result<(seq<NamedInput>, nat)>)
      requires Valid() && Counts(remaining, R.InputReads(inputs) + later)
      modifies this`bindings, this`remaining, this`disk, this`nextFile, this`asked
      ensures Grows(old(disk), disk) && ResidentBytes(bindings) <= RESIDENT_BINDINGS_BUDGET
      ensures r.Ok? ==> Valid() && Counts(remaining, later)
      ensures r.Ok? ==> Registering(world, disk, bindings, Meaning(), inputs, |inputs|, r.value.0, r.value.1,
                                    old(Meaning()), LiveOrigins(old(bindings)), later)
      ensures r.Err? ==> Failed(r.error) || R.ReadInputs(old(Meaning()), inputs) == Err(r.error)
    {
      ghost var start, live := Meaning(), LiveOrigins(bindings);
      var registered: seq<NamedInput> := [];
      var inputBytes := 0;
      assert inputs[0..] == inputs;
      for i := 0 to |inputs|
        invariant Grows(old(disk), disk) && Valid() && Counts(remaining, R.InputReads(inputs[i..]) + later)
        invariant Registering(world, disk, bindings, Meaning(), inputs, i, registered, inputBytes, start, live, later)
      {
        ghost var before := disk;
        var next := RegisterNext(inputs, i, registered, inputBytes, start, live, later);
        if next.Err? {
          return Err(next.error);
        }
        registered, inputBytes := next.value.0, next.value.1;
      }
      assert multiset{} + later == later;
      return Ok((registered, inputBytes));
    }

    /** Execute a fragment on the spot: the guard's probe and passthrough, or a projection. */
    method ExecuteNow(fragment: Fragment, tables: seq<(string, Table)>) returns (r: Result<Batches>)
      modifies this`asked
      ensures r.Ok? ==> R.Evaluate(world, fragment, tables) == Ok(TableOf(r.value))
      ensures r.Err? ==> Failed(r.error) || R.Evaluate(world, fragment, tables) == Err(r.error)
    {
      var failed := Fails();
      if failed {
        return Err(Backend);
      }
      var t :- R.Evaluate(world, fragment, tables);
      var b := Arrive(t);
      return Ok(b);
    }

    /** Compose a fragment over its registered inputs, or execute it if it must be. */
    method Compose(step: nat, fragment: Fragment, plans: seq<NamedInput>, inputBytes: nat) returns (r: Result<Binding>)
      modifies this`asked
      ensures r.Ok? ==> ComesOf(world, disk, r.value, fragment, plans, inputBytes, step)
      ensures r.Err? ==> || Failed(r.error)
                         || R.Evaluate(world, fragment, EvalInputs(world, disk, plans)) == Err(r.error)
    {
      if Eager(fragment) {
        var b :- ExecuteNow(fragment, EvalInputs(world, disk, plans));
        return Ok(Materialized(b));
      }
      var unplanned := Fails();
      if unplanned {
        return Err(Backend);
      }
      return Ok(Lazy(LazyRegion(Node(step, fragment, plans), inputBytes)));
    }

    /** Register a fragment's inputs, then compose or execute it over them. */
    method RunFragment(step: nat, fragment: Fragment, inputs: seq<MergeInput>, ghost later: multiset<string>)
      returns (r: Result<Binding>)
      requires Valid() && Counts(remaining, R.InputReads(inputs) + later)
      requires step !in LiveOrigins(bindings)
      modifies this`bindings, this`remaining, this`disk, this`nextFile, this`asked
      ensures Grows(old(disk), disk) && ResidentBytes(bindings) <= RESIDENT_BINDINGS_BUDGET
      ensures r.Ok? ==> Valid() && Counts(remaining, later) && R.Agree(Meaning(), old(Meaning()), later)
      ensures r.Ok? ==> Storable(disk, bindings, r.value, LiveOrigins(old(bindings)), step)
      ensures r.Ok? ==> MergesTo(world, disk, fragment, inputs, old(Meaning()), r.value)
      ensures r.Err? ==> Failed(r.error) || R.Merged(world, fragment, inputs, old(Meaning())) == Err(r.error)
    {
      ghost var start, live := Meaning(), LiveOrigins(bindings);
      var registered := RegisterInputs(inputs, later);
      if registered.Err? {
        assert R.ReadInputs(start, inputs) == Err(registered.error) ==>
            R.Merged(world, fragment, inputs, start) == Err(registered.error);
        return Err(registered.error);
      }
      r := ComposeOver(step, fragment, inputs, registered.value.0, registered.value.1, start, live, later);
    }

    /** Compose or execute a fragment over all of its registered inputs. */
    method ComposeOver(step: nat, fragment: Fragment, ghost inputs: seq<MergeInput>, plans: seq<NamedInput>,
                       inputBytes: nat, ghost start: R.Env, ghost live: set<nat>, ghost later: multiset<string>)
      returns (r: Result<Binding>)
      requires step !in live
      requires Registering(world, disk, bindings, Meaning(), inputs, |inputs|, plans, inputBytes, start, live, later)
      modifies this`asked
      ensures R.Agree(Meaning(), start, later)
      ensures r.Ok? ==> Storable(disk, bindings, r.value, live, step)
      ensures r.Ok? ==> MergesTo(world, disk, fragment, inputs, start, r.value)
      ensures r.Err? ==> Failed(r.error) || R.Merged(world, fragment, inputs, start) == Err(r.error)
    {
      AllRegistered(world, disk, bindings, Meaning(), inputs, plans, inputBytes, start, live, later, fragment);
      r := Compose(step, fragment, plans, inputBytes);
      if r.Ok? {
        MergeComes(world, disk, bindings, Meaning(), inputs, plans, inputBytes, start, live, later, step, fragment,
                   r.value);
      }
    }

    /** Store what a step produced; only a materialized relation goes through the budget. */
    method StoreResult(name: string, b: Binding) returns (ok: bool)
      requires Valid() && Readable(disk, b) && WellComposed(b) && OriginsOf(b) !! LiveOrigins(bindings)
      modifies this`bindings, this`disk, this`nextFile, this`asked
      ensures Grows(old(disk), disk) && ResidentBytes(bindings) <= RESIDENT_BINDINGS_BUDGET
      ensures ok ==> Valid() && Meaning() == old(Meaning())[name := old(Denote(world, disk, b))]
      ensures ok ==> LiveOrigins(bindings) <= LiveOrigins(old(bindings)) + OriginsOf(b)
      ensures !ok ==> Faulty()
      ensures ok && b.Materialized? ==>
                if BytesOf(b.b.batches) > RESIDENT_BINDINGS_BUDGET then IsSpilled(bindings, name)
                else IsResident(bindings, name)
    {
      if b.Materialized? {
        ok := StoreRelation(name, b.b);
        return;
      }
      StoreBinding(world, disk, disk, bindings, name, b);
      InsertBytes(bindings, name, b);
      bindings := bindings[name := b];
      return true;
    }

    /**
     * The interpreter against the reference: every held binding means what the environment says, every name read
     * ahead is held, the counts of reads ahead are exact, and live plans come from earlier steps.
     */
    ghost predicate Tracks(st: R.State, ahead: multiset<string>, step: nat)
      reads this`bindings, this`disk, this`nextFile, this`remaining, this`pins
    {
      && Valid() && pins == st.pins && Counts(remaining, ahead)
      && R.Agree(Meaning(), st.env, ahead)
      && (forall s :: s in LiveOrigins(bindings) ==> s < step)
    }

    /** A step done: the reference takes it too, and the interpreter tracks the state it leads to. */
    ghost predicate Follows(next: Result<R.State>, later: multiset<string>, i: nat)
      reads this`bindings, this`disk, this`nextFile, this`remaining, this`pins
    {
      next.Ok? && Tracks(next.value, later, i + 1)
    }

    /** Read a source, natively; the driver can fail. */
    method Fetched(answer: Result<Table>) returns (r: Result<Batches>)
      modifies this`asked
      ensures r.Ok? ==> answer == Ok(TableOf(r.value))
      ensures r.Err? ==> Failed(r.error) || answer == Err(r.error)
    {
      var unreached := Fails();
      if unreached {
        return Err(Backend);
      }
      var t :- answer;
      var b := Arrive(t);
      return Ok(b);
    }

    /** Bind a step's result: the reference binds the same meaning. */
    method Bind(name: string, b: Binding, i: nat, ghost st: R.State,
                ghost later: multiset<string>) returns (e: Option<Error>)
      requires Tracks(st, later, i)
      requires Readable(disk, b) && WellComposed(b) && OriginsOf(b) !! LiveOrigins(bindings)
      requires forall s :: s in OriginsOf(b) ==> s <= i
      modifies this`bindings, this`disk, this`nextFile, this`asked
      ensures ResidentBytes(bindings) <= RESIDENT_BINDINGS_BUDGET
      ensures e.None? ==> Tracks(st.(env := st.env[name := old(Denote(world, disk, b))]), later, i + 1)
      ensures e.Some? ==> Failed(e.value)
      ensures e.None? && b.Materialized? ==>
                if BytesOf(b.b.batches) > RESIDENT_BINDINGS_BUDGET then IsSpilled(bindings, name)
                else IsResident(bindings, name)
    {
      R.AgreeBind(Meaning(), st.env, later, name, Denote(world, disk, b));
      var ok := StoreResult(name, b);
      return if ok then None else Some(Backend);
    }

    /** A read that consumed nothing: one use noted, everything still held. */
    method NoteRead(name: string, i: nat, ghost st: R.State, ghost later: multiset<string>)
      requires Tracks(st, multiset{name} + later, i)
      modifies this`remaining
      ensures Tracks(st, later, i)
    {
      R.AgreeLater(Meaning(), Meaning(), st.env, multiset{name}, later);
      NoteUseCounts(remaining, name, later);
      remaining := NoteUse(remaining, name);
    }

    method RunSourceScan(step: Step, i: nat, ghost st: R.State,
                         ghost later: multiset<string>) returns (e: Option<Error>)
      requires step.SourceScan? && Tracks(st, later, i)
      modifies this`bindings, this`disk, this`nextFile, this`asked
      ensures ResidentBytes(bindings) <= RESIDENT_BINDINGS_BUDGET
      ensures e.None? ==> Follows(R.ScanStep(engine, st, step.datasource, step.scan, step.binding), later, i)
      ensures e.Some? ==> || Failed(e.value)
                          || R.ScanStep(engine, st, step.datasource, step.scan, step.binding) == Err(e.value)
    {
      var r := Fetched(engine.fetch(pins, step.datasource, step.scan));
      if r.Err? {
        return Some(r.error);
      }
      e := Bind(step.binding, Materialized(r.value), i, st, later);
    }

    /** Read the NULL-free distinct values of one column of a relation, in memory or on disk. */
    method CollectDistinctFrom(name: string, key: string) returns (r: Result<Batches>)
      requires name in bindings ==> !bindings[name].Lazy?
      modifies this`asked
      ensures r.Ok? ==> R.KeysOver(Meaning(), name, key) == Ok(TableOf(r.value))
      ensures r.Err? ==> Failed(r.error) || R.KeysOver(Meaning(), name, key) == Err(r.error)
    {
      if name !in bindings {
        return Err(UnknownBinding(name));
      }
      var src: Table;
      match bindings[name] {
        case Materialized(b) => src := TableOf(b);
        case Spilled(s) => src := SpilledTable(disk, s);
        case Keys(_) => return Err(NotARelation(name));
      }
      r := Fetched(K.DistinctKeys(src, key));
    }

    method ForceAndCollect(name: string, key: string) returns (r: Result<Batches>)
      requires Valid()
      modifies this`bindings, this`disk, this`nextFile, this`asked
      ensures ResidentBytes(bindings) <= RESIDENT_BINDINGS_BUDGET
      ensures r.Ok? ==> Valid() && Meaning() == old(Meaning()) && LiveOrigins(bindings) <= LiveOrigins(old(bindings))
      ensures r.Ok? ==> R.KeysOver(old(Meaning()), name, key) == Ok(TableOf(r.value))
      ensures r.Err? ==> Failed(r.error) || R.KeysOver(old(Meaning()), name, key) == Err(r.error)
    {
      var forced := ForceMaterialized(name);
      if !forced {
        return Err(Backend);
      }
      r := CollectDistinctFrom(name, key);
    }

    method RunCollectDistinct(step: Step, i: nat, ghost st: R.State,
                              ghost later: multiset<string>) returns (e: Option<Error>)
      requires step.CollectDistinct? && Tracks(st, multiset{step.input} + later, i)
      modifies this`bindings, this`remaining, this`disk, this`nextFile, this`asked
      ensures ResidentBytes(bindings) <= RESIDENT_BINDINGS_BUDGET
      ensures e.None? ==> Follows(R.CollectStep(st, step.input, step.key, step.binding), later, i)
      ensures e.Some? ==> Failed(e.value) || R.CollectStep(st, step.input, step.key, step.binding) == Err(e.value)
    {
      R.NameAgrees(Meaning(), st.env, step.input, multiset{step.input} + later);
      var keys := ForceAndCollect(step.input, step.key);
      if keys.Err? {
        return Some(keys.error);
      }
      NoteRead(step.input, i, st, later);
      e := Bind(step.binding, Keys(keys.value), i, st, later);
    }

    /** Borrow the distinct build keys a keys binding holds. */
    method KeysBinding(name: string) returns (r: Result<Batches>)
      ensures R.KeysNamed(Meaning(), name) == if r.Ok? then Ok(TableOf(r.value)) else Err(r.error)
    {
      return if name in bindings && bindings[name].Keys? then Ok(bindings[name].b) else Err(NotKeys(name));
    }

    method ExtraKeys(extras: seq<ExtraInjection>) returns (r: Result<seq<KeySet>>)
      ensures r == R.ReadExtras(Meaning(), extras)
    {
      var sets: seq<KeySet> := [];
      for k := 0 to |extras|
        invariant R.ReadExtras(Meaning(), extras[..k]) == Ok(sets)
      {
        assert extras[..k + 1][..k] == extras[..k];
        var keys := KeysBinding(extras[k].keysFrom);
        if keys.Err? {
          ExtraFails(Meaning(), extras, k);
          return Err(keys.error);
        }
        sets := sets + [KeySet(extras[k].column, TableOf(keys.value))];
      }
      assert extras[..|extras|] == extras;
      return Ok(sets);
    }

    method NoteExtras(extras: seq<ExtraInjection>, i: nat, ghost st: R.State, ghost later: multiset<string>)
      requires Tracks(st, R.ExtraReads(extras) + later, i)
      modifies this`remaining
      ensures Tracks(st, later, i)
    {
      assert extras[0..] == extras;
      for k := 0 to |extras|
        invariant Tracks(st, R.ExtraReads(extras[k..]) + later, i)
      {
        assert extras[k..][0] == extras[k] && extras[k..][1..] == extras[k + 1..];
        ghost var rest := R.ExtraReads(extras[k + 1..]) + later;
        assert R.ExtraReads(extras[k..]) + later == multiset{extras[k].keysFrom} + rest;
        NoteRead(extras[k].keysFrom, i, st, rest);
      }
      assert R.ExtraReads(extras[|extras|..]) + later == later;
    }

    method FetchInjected(step: Step) returns (r: Result<Batches>)
      requires step.InjectedScan?
      modifies this`asked
      ensures r.Ok? ==> R.InjectedOver(engine, Meaning(), pins, step) == Ok(TableOf(r.value))
      ensures r.Err? ==> Failed(r.error) || R.InjectedOver(engine, Meaning(), pins, step) == Err(r.error)
    {
      var keys :- KeysBinding(step.keysFrom);
      var extras :- ExtraKeys(step.extras);
      var extraFilter := ExtrasInFilter(extras);
      var filter := InListFilter(TableOf(keys), step.injectColumn);
      r := Fetched(engine.deliver(pins, step.datasource, step.scan, step.injectColumn, TableOf(keys), step.ndv,
                           filter, extraFilter));
    }

    method RunInjected(step: Step, i: nat, ghost st: R.State, ghost later: multiset<string>) returns (e: Option<Error>)
      requires step.InjectedScan? && Tracks(st, multiset{step.keysFrom} + (R.ExtraReads(step.extras) + later), i)
      modifies this`bindings, this`remaining, this`disk, this`nextFile, this`asked
      ensures ResidentBytes(bindings) <= RESIDENT_BINDINGS_BUDGET
      ensures e.None? ==> Follows(R.InjectedStep(engine, st, step), later, i)
      ensures e.Some? ==> Failed(e.value) || R.InjectedStep(engine, st, step) == Err(e.value)
    {
      ghost var ahead := multiset{step.keysFrom} + (R.ExtraReads(step.extras) + later);
      R.NameAgrees(Meaning(), st.env, step.keysFrom, ahead);
      R.ExtrasAgree(Meaning(), st.env, step.extras, ahead);
      var r := FetchInjected(step);
      if r.Err? {
        return Some(r.error);
      }
      NoteRead(step.keysFrom, i, st, R.ExtraReads(step.extras) + later);
      NoteExtras(step.extras, i, st, later);
      e := Bind(step.binding, Materialized(r.value), i, st, later);
    }

    /** Borrow a binding as materialized batches; a spilled one is refused. */
    method MaterializedNow(name: string) returns (r: Result<Batches>)
      ensures r.Ok? ==> R.Relation(Meaning(), name) == Ok(TableOf(r.value))
      ensures r.Ok? <==> IsResident(bindings, name)
      ensures r.Err? ==> if name in bindings then r.error == NotResident(name)
                         else R.Relation(Meaning(), name) == Err(r.error)
    {
      return if name !in bindings then Err(UnknownBinding(name))
             else if bindings[name].Materialized? then Ok(bindings[name].b)
             else Err(NotResident(name));
    }

    /** Load a relation into a temporary table of the target's pinned connection. */
    method Load(ds: string, table: string, b: Batches) returns (e: Option<Error>)
      modifies this`pins, this`asked
      ensures e.None? ==> R.ShipTable(world, old(pins), ds, table, TableOf(b)) == Ok(pins)
      ensures e.Some? ==> Failed(e.value) || R.ShipTable(world, old(pins), ds, table, TableOf(b)) == Err(e.value)
    {
      var loaded: Result<DsSpec>;
      var gone: set<(string, string)>;
      loaded, pins, gone, asked := LoadTable(world, pins, ds, table, TableOf(b), faults, asked);
      return if loaded.Ok? then None else Some(loaded.error);
    }

    /** Force a relation if it is lazy, and look at it in place; one that is on disk is refused. */
    method Borrowed(name: string, i: nat, ghost st: R.State, ghost later: multiset<string>) returns (r: Result<Batches>)
      requires Tracks(st, multiset{name} + later, i)
      modifies this`bindings, this`disk, this`nextFile, this`asked
      ensures ResidentBytes(bindings) <= RESIDENT_BINDINGS_BUDGET
      ensures r.Ok? ==> Tracks(st, multiset{name} + later, i) && R.Borrow(st.env, name) == Ok(TableOf(r.value))
      ensures r.Ok? ==> !Refused(old(bindings), bindings, name)
      ensures r.Err? ==> || Failed(r.error)
                         || R.Borrow(st.env, name) == Err(r.error)
                         || (r.error == NotResident(name) && Refused(old(bindings), bindings, name)
                              && R.Relation(st.env, name).Ok?)
      ensures IsSpilled(old(bindings), name) ==> r == Err(NotResident(name))
    {
      R.NameAgrees(Meaning(), st.env, name, multiset{name} + later);
      var forced := ForceMaterialized(name);
      if !forced {
        return Err(Backend);
      }
      r := MaterializedNow(name);
    }

    /** Note the read of a borrowed relation and load it. */
    method LoadBorrowed(step: Step, i: nat, ghost st: R.State, ghost later: multiset<string>,
                        b: Batches) returns (e: Option<Error>)
      requires step.Ship? && Tracks(st, multiset{step.input} + later, i)
      requires R.Borrow(st.env, step.input) == Ok(TableOf(b))
      modifies this`remaining, this`pins, this`asked
      ensures e.None? ==> Follows(R.ShipStep(engine, st, step.datasource, step.input, step.table), later, i)
      ensures e.Some? ==> || Failed(e.value)
                          || R.ShipStep(engine, st, step.datasource, step.input, step.table) == Err(e.value)
    {
      NoteRead(step.input, i, st, later);
      e := Load(step.datasource, step.table, b);
    }

    /** Ship a relation to a DuckDB target; one that is on disk, before or after forcing, is refused. */
    method RunShip(step: Step, i: nat, ghost st: R.State, ghost later: multiset<string>) returns (e: Option<Error>)
      requires step.Ship? && Tracks(st, multiset{step.input} + later, i)
      modifies this`bindings, this`remaining, this`disk, this`nextFile, this`pins, this`asked
      ensures ResidentBytes(bindings) <= RESIDENT_BINDINGS_BUDGET
      ensures e.None? ==> Follows(R.ShipStep(engine, st, step.datasource, step.input, step.table), later, i)
      ensures e.Some? ==> || Failed(e.value)
                          || R.ShipStep(engine, st, step.datasource, step.input, step.table) == Err(e.value)
                          || Refuses(step, e.value, old(bindings), bindings, st.env)
      ensures IsSpilled(old(bindings), step.input) ==> e == Some(NotResident(step.input))
      ensures e.None? ==> !Refused(old(bindings), bindings, step.input)
    {
      var b := Borrowed(step.input, i, st, later);
      if b.Err? {
        return Some(b.error);
      }
      e := LoadBorrowed(step, i, st, later, b.value);
    }

    /** Run a merge's fragment over what the environment says its inputs are. */
    method ComposeMerge(fragment: Fragment, inputs: seq<MergeInput>, i: nat, ghost st: R.State,
                        ghost later: multiset<string>)
      returns (r: Result<Binding>)
      requires Tracks(st, R.InputReads(inputs) + later, i)
      modifies this`bindings, this`remaining, this`disk, this`nextFile, this`asked
      ensures ResidentBytes(bindings) <= RESIDENT_BINDINGS_BUDGET
      ensures r.Ok? ==> Tracks(st, later, i)
      ensures r.Ok? ==> Readable(disk, r.value) && WellComposed(r.value) && OriginsOf(r.value) !! LiveOrigins(bindings)
      ensures r.Ok? ==> R.Merged(world, fragment, inputs, st.env).Ok? &&
                        Denote(world, disk, r.value) == Rel(R.Merged(world, fragment, inputs, st.env).value)
      ensures r.Ok? ==> forall s :: s in OriginsOf(r.value) ==> s <= i
      ensures r.Err? ==> Failed(r.error) || R.Merged(world, fragment, inputs, st.env) == Err(r.error)
    {
      ghost var held := Meaning();
      R.InputsAgree(held, st.env, inputs, R.InputReads(inputs) + later);
      r := RunFragment(i, fragment, inputs, later);
      if r.Ok? {
        R.AgreeLater(Meaning(), held, st.env, R.InputReads(inputs), later);
      }
    }

    method RunMerge(step: Step, i: nat, ghost st: R.State, ghost later: multiset<string>) returns (e: Option<Error>)
      requires step.Merge? && Tracks(st, R.InputReads(step.inputs) + later, i)
      modifies this`bindings, this`remaining, this`disk, this`nextFile, this`asked
      ensures ResidentBytes(bindings) <= RESIDENT_BINDINGS_BUDGET
      ensures e.None? ==> Follows(R.MergeStep(engine, fragments, st, step.fragment, step.inputs, step.binding),
                later, i)
      ensures e.Some? ==> || Failed(e.value)
                          || R.MergeStep(engine, fragments, st, step.fragment, step.inputs, step.binding) ==
                               Err(e.value)
    {
      if step.fragment !in fragments {
        return Some(UnknownFragment(step.fragment));
      }
      var r := ComposeMerge(fragments[step.fragment], step.inputs, i, st, later);
      if r.Err? {
        return Some(r.error);
      }
      e := Bind(step.binding, r.value, i, st, later);
    }

    /** Run one step other than the return. */
    method RunStep(step: Step, i: nat, ghost st: R.State, ghost later: multiset<string>) returns (e: Option<Error>)
      requires !step.Return? && Tracks(st, R.StepReads(step) + later, i)
      modifies this`bindings, this`remaining, this`disk, this`nextFile, this`pins, this`asked
      ensures ResidentBytes(bindings) <= RESIDENT_BINDINGS_BUDGET
      ensures e.None? ==> Follows(R.ApplyStep(engine, fragments, step, st), later, i)
      ensures e.Some? ==> || Failed(e.value) || R.ApplyStep(engine, fragments, step, st) == Err(e.value)
                          || Refuses(step, e.value, old(bindings), bindings, st.env)
    {
      match step
      case SourceScan(_, _, _) =>
        assert multiset{} + later == later;
        e := RunSourceScan(step, i, st, later);
      case CollectDistinct(_, _, _, _) => e := RunCollectDistinct(step, i, st, later);
      case InjectedScan(_, _, _, _, _, _, extras) =>
        assert R.StepReads(step) + later == multiset{step.keysFrom} + (R.ExtraReads(extras) + later);
        e := RunInjected(step, i, st, later);
      case Ship(_, _, _) => e := RunShip(step, i, st, later);
      case Merge(_, _, _) => e := RunMerge(step, i, st, later);
    }

    /** Read a spilled relation back into memory. */
    method ReadSpilled(s: SpilledBinding) returns (r: Result<Batches>)
      modifies this`asked
      ensures r.Ok? ==> TableOf(r.value) == SpilledTable(disk, s)
      ensures r.Err? ==> Failed(r.error)
    {
      var unfound := Fails();
      if unfound {
        return Err(Backend);
      }
      var file := if s.file in disk then disk[s.file] else [];
      var batches: seq<Batch> := [];
      for k := 0 to |file|
        invariant batches == file[..k]
      {
        var unread := Fails();
        if unread {
          return Err(Backend);
        }
        batches := batches + [file[k]];
      }
      assert file[..|file|] == file;
      return Ok(Batches(s.schema, batches));
    }

    /** Take the named binding as the result. */
    method Export(name: string) returns (r: Result<Batches>)
      requires name in bindings ==> !bindings[name].Lazy?
      modifies this`bindings, this`asked
      ensures bindings == old(bindings) - {name}
      ensures r.Ok? ==> R.Relation(old(Meaning()), name) == Ok(TableOf(r.value))
      ensures r.Err? ==> Failed(r.error) || R.Relation(old(Meaning()), name) == Err(r.error)
    {
      if name !in bindings {
        assert bindings - {name} == bindings;
        return Err(UnknownBinding(name));
      }
      var taken := bindings[name];
      bindings := bindings - {name};
      match taken
      case Materialized(b) => return Ok(b);
      case Spilled(s) => r := ReadSpilled(s);
      case Keys(_) => return Err(NotARelation(name));
    }

    method RunReturn(name: string, i: nat, ghost st: R.State,
                     ghost later: multiset<string>) returns (r: Result<Batches>)
      requires Tracks(st, multiset{name} + later, i)
      modifies this`bindings, this`disk, this`nextFile, this`asked
      ensures r.Ok? ==> R.Relation(st.env, name) == Ok(TableOf(r.value))
      ensures r.Err? ==> Failed(r.error) || R.Relation(st.env, name) == Err(r.error)
    {
      R.NameAgrees(Meaning(), st.env, name, multiset{name} + later);
      var forced := ForceMaterialized(name);
      if !forced {
        return Err(Backend);
      }
      r := Export(name);
    }

    /** The first `i` steps are done, by the interpreter and by the reference. */
    ghost predicate Walking(steps: seq<Step>, i: nat, st: R.State)
      reads this`bindings, this`disk, this`nextFile, this`remaining, this`pins
    {
      && Reached(engine, fragments, steps, i, st)
      && Tracks(st, R.ReadsAhead(steps[i..]), i)
      && R.Run(engine, fragments, steps[i..], st) == R.Run(engine, fragments, steps, R.State(map[], map[]))
    }

    /** Run the next step, other than the return. */
    method RunNext(steps: seq<Step>, i: nat, ghost st: R.State)
      returns (e: Option<Error>, ghost next: R.State, ghost refusal: Option<Refusal>)
      requires i < |steps| && !steps[i].Return? && Walking(steps, i, st)
      modifies this`bindings, this`remaining, this`disk, this`nextFile, this`pins, this`asked
      ensures e.None? ==> Walking(steps, i + 1, next)
      ensures e.Some? ==> Explained(engine, fragments, steps, Faulty(), e.value, refusal)
    {
      ghost var held := bindings;
      NextOf(engine, fragments, steps, i, st);
      e := RunStep(steps[i], i, st, R.ReadsAhead(steps[i + 1..]));
      refusal := Some(Refusal(i, held, bindings, st));
      next := st;
      if e.None? {
        next := R.ApplyStep(engine, fragments, steps[i], st).value;
        ReachedNext(engine, fragments, steps, i, st);
      }
    }

    /** Run the return that ends the walk. */
    method RunLast(steps: seq<Step>, i: nat, ghost st: R.State) returns (r: Result<Batches>)
      requires i < |steps| && steps[i].Return? && Walking(steps, i, st)
      modifies this`bindings, this`disk, this`nextFile, this`asked
      ensures r.Ok? ==> R.Run(engine, fragments, steps, R.State(map[], map[])) == Ok(TableOf(r.value))
      ensures r.Err? ==> Explained(engine, fragments, steps, Faulty(), r.error, None)
    {
      NextOf(engine, fragments, steps, i, st);
      r := RunReturn(steps[i].input, i, st, R.ReadsAhead(steps[i + 1..]));
    }

    /** Walk the steps in order until one returns or fails. */
    method RunSteps(steps: seq<Step>) returns (r: Result<Batches>, ghost refusal: Option<Refusal>)
      requires Tracks(R.State(map[], map[]), R.ReadsAhead(steps), 0)
      modifies this`bindings, this`remaining, this`disk, this`nextFile, this`pins, this`asked
      ensures r.Ok? ==> R.Run(engine, fragments, steps, R.State(map[], map[])) == Ok(TableOf(r.value))
      ensures r.Err? ==> Explained(engine, fragments, steps, Faulty(), r.error, refusal)
    {
      ghost var st := R.State(map[], map[]);
      refusal := None;
      FirstSteps(engine, fragments, steps);
      for i := 0 to |steps|
        invariant Walking(steps, i, st)
      {
        if steps[i].Return? {
          r := RunLast(steps, i, st);
          return;
        }
        var e: Option<Error>;
        e, st, refusal := RunNext(steps, i, st);
        if e.Some? {
          return Err(e.value), refusal;
        }
      }
      assert steps[|steps|..] == [];
      return Err(NoReturn), None;
    }
  }

  lemma {:induction false} PutBack(before: map<string, Meaning>, name: string)
    requires name in before
    ensures (before - {name})[name := before[name]] == before
  {
  }

  lemma {:induction false} OthersStay(held: Held, name: string, b: Binding)
    ensures held[name := b] - {name} == held - {name}
  {
  }

  /** Of the other names only resident relations moved to disk, and no more of them than any choice that makes room. */
  ghost predicate FewestMoved(before: Held, others: Held, name: string, incoming: nat) {
    && OnlySpilled(before - {name}, others)
    && forall chosen: set<string> :: ResidentBytes(before - chosen) + incoming <= RESIDENT_BINDINGS_BUDGET ==>
         |EvictedNames(before, others)| <= |chosen|
  }

  lemma {:induction false} OthersMoved(before: Held, after: Held, name: string, incoming: nat)
    requires OnlySpilled(before, after)
    requires forall chosen: set<string> :: ResidentBytes(before - chosen) + incoming <= RESIDENT_BINDINGS_BUDGET ==>
               |EvictedNames(before, after)| <= |chosen|
    ensures FewestMoved(before, after - {name}, name, incoming)
  {
    EvictedBeside(before, after, name);
  }

  predicate IsResident(held: Held, name: string) {
    name in held && held[name].Materialized?
  }

  predicate IsLazy(held: Held, name: string) {
    name in held && held[name].Lazy?
  }

  predicate IsSpilled(held: Held, name: string) {
    name in held && held[name].Spilled?
  }

  /** The form a forced plan's result is stored in: in memory, or on disk when it alone exceeds the budget. */
  predicate Settled(b: Binding) {
    b.Materialized? || (b.Spilled? && b.spilled.bytes > RESIDENT_BINDINGS_BUDGET)
  }

  /** A ship's relation was on disk before, or is a lazy plan whose result alone exceeds the budget. */
  predicate Refused(before: Held, after: Held, name: string) {
    || IsSpilled(before, name)
    || (IsLazy(before, name) && IsSpilled(after, name) && after[name].spilled.bytes > RESIDENT_BINDINGS_BUDGET)
  }

  /** A ship is refused although its relation has a meaning, because it is or ends on disk. */
  predicate Refuses(step: Step, e: Error, before: Held, after: Held, env: R.Env) {
    step.Ship? && e == NotResident(step.input) && Refused(before, after, step.input) && R.Relation(env, step.input).Ok?
  }

  /** The step at which a run was refused: the bindings before and after it, and the reference's state there. */
  datatype Refusal = Refusal(step: nat, before: Held, after: Held, at: R.State)

  /** The reference reaches a state after the first `i` steps. */
  ghost predicate Reached(e: R.Engine, fragments: map<string, Fragment>, steps: seq<Step>, i: nat, st: R.State) {
    && i <= |steps| && R.GoesOn(steps[..i])
    && R.Follow(e, fragments, steps[..i], R.State(map[], map[])) == Ok(st)
  }

  /** What is ahead of a step is its own reads and those of the steps after it, and the run goes through it. */
  lemma {:induction false} NextOf(e: R.Engine, fragments: map<string, Fragment>, steps: seq<Step>, i: nat, st: R.State)
    requires i < |steps|
    ensures R.ReadsAhead(steps[i..]) == R.StepReads(steps[i]) + R.ReadsAhead(steps[i + 1..])
    ensures steps[i].Return? ==> R.Run(e, fragments, steps[i..], st) == R.Relation(st.env, steps[i].input)
    ensures !steps[i].Return? ==>
              R.Run(e, fragments, steps[i..], st) ==
                match R.ApplyStep(e, fragments, steps[i], st)
                case Ok(next) => R.Run(e, fragments, steps[i + 1..], next)
                case Err(error) => Err(error)
  {
    assert steps[i..][0] == steps[i] && steps[i..][1..] == steps[i + 1..];
  }

  lemma {:induction false} ReachedNext(e: R.Engine, fragments: map<string, Fragment>, steps: seq<Step>, i: nat,
                                       st: R.State)
    requires i < |steps| && !steps[i].Return? && Reached(e, fragments, steps, i, st)
    requires R.ApplyStep(e, fragments, steps[i], st).Ok?
    ensures Reached(e, fragments, steps, i + 1, R.ApplyStep(e, fragments, steps[i], st).value)
  {
    assert steps[..i + 1] == steps[..i] + [steps[i]];
    R.FollowOne(e, fragments, steps[..i], steps[i], R.State(map[], map[]));
  }

  /** Before the first step everything is ahead. */
  lemma {:induction false} FirstSteps(e: R.Engine, fragments: map<string, Fragment>, steps: seq<Step>)
    ensures Reached(e, fragments, steps, 0, R.State(map[], map[]))
    ensures steps[0..] == steps
  {
    assert steps[..0] == [];
  }

  /** The one error a run has that the reference does not: a ship of a relation that is on disk. */
  ghost predicate RefusedIn(e: R.Engine, fragments: map<string, Fragment>, steps: seq<Step>, error: Error,
                            refusal: Refusal) {
    && refusal.step < |steps| && Reached(e, fragments, steps, refusal.step, refusal.at)
    && Refuses(steps[refusal.step], error, refusal.before, refusal.after, refusal.at.env)
  }

  /** Why a run ends in an error: a failing backend, the reference's own error, or the refusal of a ship. */
  ghost predicate Explained(e: R.Engine, fragments: map<string, Fragment>, steps: seq<Step>, faulty: bool, error: Error,
                            refusal: Option<Refusal>) {
    || (error == Backend && faulty)
    || R.Run(e, fragments, steps, R.State(map[], map[])) == Err(error)
    || (refusal.Some? && RefusedIn(e, fragments, steps, error, refusal.value))
  }

  /**
   * Run a whole plan on a thread whose pinned connections an earlier query may have left behind, with `faults` saying
   * which requests fail, of which it makes the first `made`. Whatever mix of fusing, forcing, cloning, taking, spilling
   * and retrying happened, a result is the plan's meaning; unless a request it made failed, a plan that has one returns
   * it, or ships a relation that is on disk; and on every exit nothing stays pinned.
   */
  method Execute(world: World, plan: Plan, leftover: Pins, faults: nat -> bool)
    returns (r: Result<Batches>, pins: Pins, ghost made: nat, ghost refusal: Option<Refusal>)
    ensures r.Ok? ==>
              R.Run(R.EngineOf(world), plan.fragments, plan.steps, R.State(map[], map[])) == Ok(TableOf(r.value))
    ensures r.Err? ==>
              Explained(R.EngineOf(world), plan.fragments, plan.steps, FailedWithin(faults, 0, made), r.error, refusal)
    ensures !FailedWithin(faults, 0, made)
              && R.Run(R.EngineOf(world), plan.fragments, plan.steps, R.State(map[], map[])).Ok? ==>
              r.Ok? || (refusal.Some? && RefusedIn(R.EngineOf(world), plan.fragments, plan.steps, r.error,
                refusal.value))
    ensures R.WellFormed(plan.fragments, plan.steps, map[]) && r.Err? && R.Structural(r.error) ==>
              refusal.Some? && RefusedIn(R.EngineOf(world), plan.fragments, plan.steps, r.error, refusal.value)
    ensures pins == map[]
  {
    R.ConnectorsFailPlainly(world);
    r, pins, made, refusal := ExecuteOn(R.EngineOf(world), plan, leftover, faults);
  }

  /** Run a whole plan on any engine whose reads fail plainly. */
  method ExecuteOn(engine: R.Engine, plan: Plan, leftover: Pins, faults: nat -> bool)
    returns (r: Result<Batches>, pins: Pins, ghost made: nat, ghost refusal: Option<Refusal>)
    requires R.ReadsFailPlainly(engine)
    ensures r.Ok? ==> R.Run(engine, plan.fragments, plan.steps, R.State(map[], map[])) == Ok(TableOf(r.value))
    ensures r.Err? ==>
              Explained(engine, plan.fragments, plan.steps, FailedWithin(faults, 0, made), r.error, refusal)
    ensures R.WellFormed(plan.fragments, plan.steps, map[]) && r.Err? && R.Structural(r.error) ==>
              refusal.Some? && RefusedIn(engine, plan.fragments, plan.steps, r.error, refusal.value)
    ensures pins == map[]
  {
    var remaining := BindingUseCounts(plan.steps);
    var run := new Interpreter(engine, plan.fragments, remaining, faults);
    run.pins := leftover;
    run.pins := map[];
    r, refusal := run.RunSteps(plan.steps);
    run.pins := map[];
    pins, made := run.pins, run.asked;
    if R.WellFormed(plan.fragments, plan.steps, map[]) {
      R.WellFormedNeverMisreads(engine, plan.fragments, plan.steps, R.State(map[], map[]), map[]);
    }
  }

  /** Read a relation, ship it, return it. */
  function ShipPlan(ds: string, scan: ScanSpec, target: string, table: string): seq<Step> {
    [SourceScan(ds, scan, "a"), Ship(target, "a", table), Return("a")]
  }

  lemma {:induction false} ShipPlanMeans(e: R.Engine, fragments: map<string, Fragment>, ds: string, scan: ScanSpec,
                                         target: string, table: string, t: Table)
    requires e.fetch(map[], ds, scan) == Ok(t) && R.ShipTable(e.world, map[], target, table, t).Ok?
    ensures R.Run(e, fragments, ShipPlan(ds, scan, target, table), R.State(map[], map[])) == Ok(t)
    ensures R.ReadsAhead(ShipPlan(ds, scan, target, table)) == multiset{"a"} + multiset{"a"}
    ensures R.ShipStep(e, R.State(map["a" := Rel(t)], map[]), target, "a", table).Ok?
  {
    var steps := ShipPlan(ds, scan, target, table);
    var bound := R.State(map["a" := Rel(t)], map[]);
    var shipped := bound.(pins := R.ShipTable(e.world, map[], target, table, t).value);
    assert steps[1..] == [steps[1], steps[2]] && [steps[1], steps[2]][1..] == [steps[2]] && [steps[2]][1..] == [];
    assert R.ApplyStep(e, fragments, steps[0], R.State(map[], map[])) == Ok(bound);
    assert R.ApplyStep(e, fragments, steps[1], bound) == Ok(shipped);
    assert R.Run(e, fragments, [steps[2]], shipped) == Ok(t);
    assert R.Run(e, fragments, [steps[1], steps[2]], bound) == Ok(t);
    assert R.ReadsAhead([steps[2]]) == multiset{"a"};
    assert R.ReadsAhead([steps[1], steps[2]]) == multiset{"a"} + multiset{"a"};
  }

  /**
   * A relation read and shipped: the plan has a meaning and no request fails, and the run of its two steps ends in the
   * refusal exactly when the relation arrives in more than 16 GiB.
   */
  method OversizedShipIsRefused(engine: R.Engine, fragments: map<string, Fragment>, faults: nat -> bool, ds: string,
                                scan: ScanSpec, target: string, table: string, arrived: Batches)
    returns (e: Option<Error>)
    requires engine.fetch(map[], ds, scan) == Ok(TableOf(arrived))
    requires R.ShipTable(engine.world, map[], target, table, TableOf(arrived)).Ok? && !CanFail(faults)
    ensures R.Run(engine, fragments, ShipPlan(ds, scan, target, table), R.State(map[], map[])) == Ok(TableOf(arrived))
    ensures e == if BytesOf(arrived.batches) > 17_179_869_184 then Some(NotResident("a")) else None
  {
    ghost var st := R.State(map[], map[]);
    ShipPlanMeans(engine, fragments, ds, scan, target, table, TableOf(arrived));
    var remaining := BindingUseCounts(ShipPlan(ds, scan, target, table));
    var run := new Interpreter(engine, fragments, remaining, faults);
    e := run.Bind("a", Materialized(arrived), 0, st, multiset{"a"} + multiset{"a"});
    if e.None? {
      ghost var bound := R.State(map["a" := Rel(TableOf(arrived))], map[]);
      assert st.(env := st.env["a" := Rel(TableOf(arrived))]) == bound;
      e := ShipBound(run, target, table, bound);
    }
  }

  /** Ship the one relation that a run holds, which is read once more. */
  method ShipBound(run: Interpreter, target: string, table: string, ghost bound: R.State) returns (e: Option<Error>)
    requires run.Tracks(bound, multiset{"a"} + multiset{"a"}, 1) && !CanFail(run.faults)
    requires R.ShipStep(run.engine, bound, target, "a", table).Ok?
    requires IsSpilled(run.bindings, "a") || IsResident(run.bindings, "a")
    modifies run
    ensures e == if IsSpilled(old(run.bindings), "a") then Some(NotResident("a")) else None
  {
    e := run.RunShip(Ship(target, "a", table), 1, bound, multiset{"a"});
  }

  lemma {:induction false} ExtraFails(env: R.Env, extras: seq<ExtraInjection>, k: nat)
    requires k < |extras| && R.ReadExtras(env, extras[..k]).Ok? && R.KeysNamed(env, extras[k].keysFrom).Err?
    ensures R.ReadExtras(env, extras) == Err(R.KeysNamed(env, extras[k].keysFrom).error)
  {
    var init := extras[..|extras| - 1];
    if k == |init| {
      assert extras[..k] == init;
    } else {
      assert init[..k] == extras[..k];
      ExtraFails(env, init, k);
    }
  }

  /** A fresh result can be stored beside the live bindings. */
  ghost predicate Storable(disk: Disk, held: Held, b: Binding, live: set<nat>, step: nat) {
    && Readable(disk, b) && WellComposed(b)
    && OriginsOf(b) !! LiveOrigins(held)
    && LiveOrigins(held) <= live && OriginsOf(b) <= live + {step}
  }

  /** The first `i` inputs of a merge are registered, and the rest can still be read. */
  ghost predicate Registering(w: World, disk: Disk, held: Held, meaning: R.Env, inputs: seq<MergeInput>, i: nat,
                              registered: seq<NamedInput>, inputBytes: nat, start: R.Env, live: set<nat>,
                              later: multiset<string>)
    requires i <= |inputs|
  {
    && R.Agree(meaning, start, R.InputReads(inputs[i..]) + later)
    && Composing(disk, held, registered, live)
    && R.ReadInputs(start, inputs[..i]) == Ok(EvalInputs(w, disk, registered))
    && inputBytes == Clamp(InputLeafBytes(registered))
  }

  /** How a composed or executed fragment comes out of its registered inputs. */
  ghost predicate ComesOf(w: World, disk: Disk, b: Binding, fragment: Fragment, plans: seq<NamedInput>, inputBytes: nat,
                          step: nat) {
    if Eager(fragment) then b.Materialized? && R.Evaluate(w, fragment, EvalInputs(w, disk, plans)) == Ok(TableOf(b.b))
    else b == Lazy(LazyRegion(Node(step, fragment, plans), inputBytes))
  }

  /** With every input registered, a fragment means what it does over the relations its inputs name. */
  lemma {:induction false} AllRegistered(w: World, disk: Disk, held: Held, meaning: R.Env, inputs: seq<MergeInput>,
                                         plans: seq<NamedInput>, inputBytes: nat, start: R.Env, live: set<nat>,
                                         later: multiset<string>, fragment: Fragment)
    requires Registering(w, disk, held, meaning, inputs, |inputs|, plans, inputBytes, start, live, later)
    ensures R.Agree(meaning, start, later)
    ensures R.Merged(w, fragment, inputs, start) == R.Evaluate(w, fragment, EvalInputs(w, disk, plans))
  {
    assert inputs[..|inputs|] == inputs && multiset{} + later == later;
  }

  /** A binding means a fragment over what its inputs name. */
  ghost predicate MergesTo(w: World, disk: Disk, fragment: Fragment, inputs: seq<MergeInput>, env: R.Env, b: Binding) {
    R.Merged(w, fragment, inputs, env).Ok? && Denote(w, disk, b) == Rel(R.Merged(w, fragment, inputs, env).value)
  }

  /** What comes of the registered inputs can be stored, and means the merge. */
  lemma {:induction false} MergeComes(w: World, disk: Disk, held: Held, meaning: R.Env, inputs: seq<MergeInput>,
                                      plans: seq<NamedInput>, inputBytes: nat, start: R.Env, live: set<nat>,
                                      later: multiset<string>, step: nat, fragment: Fragment, b: Binding)
    requires Registering(w, disk, held, meaning, inputs, |inputs|, plans, inputBytes, start, live, later)
    requires step !in live
    requires ComesOf(w, disk, b, fragment, plans, inputBytes, step)
    ensures Storable(disk, held, b, live, step)
    ensures MergesTo(w, disk, fragment, inputs, start, b)
  {
    AllRegistered(w, disk, held, meaning, inputs, plans, inputBytes, start, live, later, fragment);
  }

  /** The reads ahead, counted exactly. */
  ghost predicate Counts(remaining: map<string, nat>, ahead: multiset<string>) {
    forall n :: UsesIn(remaining, n) == ahead[n]
  }

  /** One read of a relation handed on as a plan: what it means, and that no region is now live twice. */
  ghost predicate Handed(w: World, disk: Disk, before: R.Env, after: R.Env, heldBefore: Held, held: Held, name: string,
                         uses: nat, plan: Composed)
  {
    && R.Relation(before, name) == Ok(EvalPlan(w, disk, plan))
    && after == (if uses <= 1 then before - {name} else before)
    && FilesExist(disk, plan) && OccursOnce(plan)
    && Origins(plan) + LiveOrigins(held) <= LiveOrigins(heldBefore)
    && Origins(plan) !! LiveOrigins(held)
  }

  /** A spilled relation streams to its readers, and is dropped by the last one. */
  lemma {:induction false} StreamsOn(w: World, disk: Disk, held: Held, nextFile: nat, name: string, uses: nat)
    requires WithinBudget(disk, held, nextFile) && name in held && held[name].Spilled?
    ensures var after := if uses <= 1 then held - {name} else held;
            && WithinBudget(disk, after, nextFile)
            && Handed(w, disk, Meanings(w, disk, held), Meanings(w, disk, after), held, after, name, uses,
                      Stream(held[name].spilled))
  {
    SoundWithout(w, disk, held, name);
    RemovalBytes(held, name);
    assert Meanings(w, disk, held)[name] == Denote(w, disk, held[name]);
  }

  /** The form in which a name is handed on: unexecuted to its last reader, else streamed from disk or in memory. */
  predicate HandedAs(held: Held, name: string, uses: nat, plan: Composed) {
    && (IsLazy(held, name) && uses <= 1 ==> plan == held[name].region.plan)
    && (IsLazy(held, name) && uses > 1 ==> plan.Mem? || plan.Stream?)
    && (IsSpilled(held, name) ==> plan == Stream(held[name].spilled))
    && (IsResident(held, name) ==> plan == Mem(held[name].b))
  }

  /** The fragments executed on the spot are the guard and the projections that repeat an output name. */
  lemma {:induction false} EagerIff(fragment: Fragment)
    ensures Eager(fragment) <==>
              || fragment.SingleRowGuard?
              || ((fragment.HashJoin? || fragment.NestedLoopJoin? || fragment.Project?)
                  && exists i, j :: 0 <= i < j < |fragment.project| &&
                                    fragment.project[i].alias == fragment.project[j].alias)
  {
  }

  /** The inputs of one merge so far: their files exist and no region is used twice. */
  ghost predicate Composing(disk: Disk, held: Held, inputs: seq<NamedInput>, live: set<nat>) {
    && InputFilesExist(disk, inputs) && InputsOccurOnce(inputs)
    && InputOrigins(inputs) + LiveOrigins(held) <= live
    && InputOrigins(inputs) !! LiveOrigins(held)
  }

  lemma {:induction false} NoteUseCounts(remaining: map<string, nat>, name: string, ahead: multiset<string>)
    requires Counts(remaining, multiset{name} + ahead)
    ensures Counts(NoteUse(remaining, name), ahead)
  {
    assert UsesIn(remaining, name) == ahead[name] + 1;
    forall n ensures UsesIn(NoteUse(remaining, name), n) == ahead[n] {
      assert UsesIn(remaining, n) == (multiset{name} + ahead)[n];
    }
  }

  /** Reading input `i` keeps the counts exact and every name read later in place. */
  lemma {:induction false} NextRead(start: R.Env, held: R.Env, remaining: map<string, nat>, inputs: seq<MergeInput>,
                                    i: nat, later: multiset<string>)
    requires i < |inputs|
    requires Counts(remaining, R.InputReads(inputs[i..]) + later)
    requires R.Agree(held, start, R.InputReads(inputs[i..]) + later)
    ensures var name := inputs[i].binding;
            && R.Relation(held, name) == R.Relation(start, name)
            && Counts(NoteUse(remaining, name), R.InputReads(inputs[i + 1..]) + later)
            && R.Agree(if UsesIn(remaining, name) <= 1 then held - {name} else held, start,
                       R.InputReads(inputs[i + 1..]) + later)
  {
    var name := inputs[i].binding;
    var ahead := R.InputReads(inputs[i..]) + later;
    var rest := R.InputReads(inputs[i + 1..]) + later;
    assert inputs[i..][0] == inputs[i] && inputs[i..][1..] == inputs[i + 1..];
    assert ahead == multiset{name} + rest;
    NoteUseCounts(remaining, name, rest);
    R.NameAgrees(held, start, name, ahead);
    assert UsesIn(remaining, name) == rest[name] + 1;
  }

  lemma {:induction false} ReadSucceeds(env: R.Env, inputs: seq<MergeInput>, i: nat)
    requires i < |inputs| && R.ReadInputs(env, inputs[..i]).Ok? && R.Relation(env, inputs[i].binding).Ok?
    ensures R.ReadInputs(env, inputs[..i + 1]) ==
              Ok(R.ReadInputs(env, inputs[..i]).value + [(inputs[i].table, R.Relation(env, inputs[i].binding).value)])
  {
    assert inputs[..i + 1][..i] == inputs[..i];
  }

  /** Adding one input to a composed list. */
  lemma {:induction false} Appended(w: World, before: Disk, after: Disk, inputs: seq<NamedInput>, one: NamedInput)
    requires Grows(before, after) && InputFilesExist(before, inputs) && InputsOccurOnce(inputs)
    requires FilesExist(after, one.plan) && OccursOnce(one.plan) && InputOrigins(inputs) !! Origins(one.plan)
    ensures InputFilesExist(after, inputs + [one]) && InputsOccurOnce(inputs + [one])
    ensures InputOrigins(inputs + [one]) == InputOrigins(inputs) + Origins(one.plan)
    ensures InputLeafBytes(inputs + [one]) == InputLeafBytes(inputs) + LeafBytes(one.plan)
    ensures EvalInputs(w, after, inputs + [one]) ==
              EvalInputs(w, before, inputs) + [(one.table, EvalPlan(w, after, one.plan))]
  {
    assert (inputs + [one])[..|inputs|] == inputs;
    InputsSurviveGrowth(w, before, after, inputs);
  }

  /** The first input that cannot be read decides the error. */
  lemma {:induction false} ReadFails(env: R.Env, inputs: seq<MergeInput>, i: nat)
    requires i < |inputs| && R.ReadInputs(env, inputs[..i]).Ok? && R.Relation(env, inputs[i].binding).Err?
    ensures R.ReadInputs(env, inputs) == Err(R.Relation(env, inputs[i].binding).error)
  {
    var init := inputs[..|inputs| - 1];
    if i == |init| {
      assert inputs[..i] == init;
    } else {
      assert init[..i] == inputs[..i];
      ReadFails(env, init, i);
    }
  }

  /** The incoming relation fits beside what is resident, or nothing is resident any more. */
  ghost predicate HasRoom(held: Held, incoming: nat) {
    || ResidentBytes(held) + incoming <= RESIDENT_BINDINGS_BUDGET
    || forall n :: n in held ==> !held[n].Materialized?
  }

  /** A sound store within the resident budget, with unused file names from `nextFile` on. */
  ghost predicate WithinBudget(disk: Disk, held: Held, nextFile: nat) {
    && Sound(disk, held)
    && ResidentBytes(held) <= RESIDENT_BINDINGS_BUDGET
    && (forall f :: f in disk ==> f < nextFile)
  }

  /** The first `i` listed relations have moved to disk, and every name means what it did. */
  ghost predicate Moved(w: World, before: Before, held: Held, disk: Disk, nextFile: nat, sorted: seq<Sized>, i: nat) {
    && WithinBudget(disk, held, nextFile) && Grows(before.files, disk) && Meanings(w, disk, held) == before.meaning
    && Evicting(before.held, held, sorted, i)
  }

  /** The first `i` listed relations are on disk, and the list goes on with those still resident. */
  ghost predicate Evicting(start: Held, held: Held, sorted: seq<Sized>, i: nat) {
    && i <= |sorted| && OnlySpilled(start, held) && EvictedNames(start, held) == NamesIn(sorted[..i])
    && Lists(held, held.Keys, sorted[i..])
  }

  lemma {:induction false} StartEvicting(start: Held, sorted: seq<Sized>, incoming: nat)
    requires Lists(start, start.Keys, sorted)
    ensures Evicting(start, start, sorted, 0) && Accounted(sorted, incoming, 0, TotalBytes(sorted))
  {
    assert EvictedNames(start, start) == {} && sorted[0..] == sorted && NamesIn(sorted[..0]) == {};
  }

  /** `resident` counts what the rest of the list still holds, and the greedy evictions go on from there. */
  ghost predicate Accounted(sorted: seq<Sized>, incoming: nat, i: nat, resident: nat) {
    && i <= |sorted| && resident == TotalBytes(sorted[i..])
    && EvictCount(sorted, incoming) == i + EvictCount(sorted[i..], incoming)
  }

  lemma {:induction false} AccountNext(sorted: seq<Sized>, incoming: nat, i: nat, resident: nat)
    requires i < |sorted| && Accounted(sorted, incoming, i, resident)
    requires resident + incoming > RESIDENT_BINDINGS_BUDGET
    ensures Accounted(sorted, incoming, i + 1, SaturatingSub(resident, sorted[i].bytes))
  {
    TakeNext(sorted, i);
  }

  lemma {:induction false} AccountEnd(sorted: seq<Sized>, incoming: nat, i: nat, resident: nat)
    requires Accounted(sorted, incoming, i, resident)
    requires i == |sorted| || resident + incoming <= RESIDENT_BINDINGS_BUDGET
    ensures EvictCount(sorted, incoming) == i
  {
  }

  lemma {:induction false} TakeNext(sorted: seq<Sized>, i: nat)
    requires i < |sorted|
    ensures TotalBytes(sorted[i..]) == sorted[i].bytes + TotalBytes(sorted[i + 1..])
    ensures sorted[i..] != [] && sorted[i..][0] == sorted[i] && sorted[i..][1..] == sorted[i + 1..]
  {
  }

  lemma {:induction false} RoomMade(held: Held, sorted: seq<Sized>, count: nat, incoming: nat)
    requires count == EvictCount(sorted, incoming) && Lists(held, held.Keys, sorted[count..])
    ensures HasRoom(held, incoming)
  {
    GreedyStopsAtRoom(sorted, incoming, count);
    ListedTotal(held, sorted[count..]);
  }

  /** The greedy evictions are no more than any choice that makes room. */
  lemma {:induction false} FewestEvicted(start: Held, now: Held, sorted: seq<Sized>, incoming: nat)
    requires Lists(start, start.Keys, sorted) && Descending(sorted)
    requires |EvictedNames(start, now)| <= EvictCount(sorted, incoming)
    ensures forall chosen: set<string> :: ResidentBytes(start - chosen) + incoming <= RESIDENT_BINDINGS_BUDGET ==>
              |EvictedNames(start, now)| <= |chosen|
  {
    forall chosen: set<string> | ResidentBytes(start - chosen) + incoming <= RESIDENT_BINDINGS_BUDGET
      ensures |EvictedNames(start, now)| <= |chosen|
    {
      ListedBytes(start, sorted, chosen);
      GreedyIsOptimal(sorted, incoming, chosen);
    }
  }
}
