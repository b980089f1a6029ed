/** The forms in which a run holds a named intermediate, and what each of them means. */
module Bindings {
  import opened Ir
  import opened Relations
  import opened Sources

  const USIZE_MAX: nat := 0xFFFF_FFFF_FFFF_FFFF

  function SatAdd(a: nat, b: nat): nat {
    if a + b <= USIZE_MAX then a + b else USIZE_MAX
  }

  function Clamp(n: nat): nat {
    if n <= USIZE_MAX then n else USIZE_MAX
  }

  /** Volumes saturate at 64 bits: adding clamped ones is clamping their sum. */
  lemma {:induction false} SaturatesAt64Bits(a: nat, b: nat)
    ensures SatAdd(Clamp(a), Clamp(b)) == Clamp(a + b)
    ensures Clamp(a) == if a < 0x1_0000_0000_0000_0000 then a else 0xFFFF_FFFF_FFFF_FFFF
  {
  }

  /** One Arrow batch: its rows, and the buffer bytes it happens to occupy. */
  datatype Batch = Batch(rows: seq<Row>, bytes: nat)

  datatype Batches = Batches(schema: seq<Field>, batches: seq<Batch>)

  function RowsOf(bs: seq<Batch>): seq<Row> {
    if bs == [] then [] else RowsOf(bs[..|bs| - 1]) + bs[|bs| - 1].rows
  }

  function BytesOf(bs: seq<Batch>): nat {
    if bs == [] then 0 else BytesOf(bs[..|bs| - 1]) + bs[|bs| - 1].bytes
  }

  lemma {:induction false} RowsAppend(a: seq<Batch>, b: seq<Batch>)
    ensures RowsOf(a + b) == RowsOf(a) + RowsOf(b)
  {
    if b == [] {
      assert a + b == a;
    } else {
      assert (a + b)[..|a + b| - 1] == a + b[..|b| - 1];
      RowsAppend(a, b[..|b| - 1]);
    }
  }

  /** A relation's bytes are a sum: of any two parts of it, down to each batch on its own. */
  lemma {:induction false} BytesAppend(a: seq<Batch>, b: seq<Batch>)
    ensures BytesOf(a + b) == BytesOf(a) + BytesOf(b)
  {
    if b == [] {
      assert a + b == a;
    } else {
      assert (a + b)[..|a + b| - 1] == a + b[..|b| - 1];
      BytesAppend(a, b[..|b| - 1]);
    }
  }

  lemma {:induction false} OneBatch(b: Batch)
    ensures BytesOf([b]) == b.bytes && RowsOf([b]) == b.rows
  {
    assert [b][..0] == [];
  }

  /** The relation some batches hold, however they are cut. */
  function TableOf(b: Batches): Table {
    Table(b.schema, RowsOf(b.batches))
  }

  /** A relation in an Arrow IPC file; `bytes` is its size in memory before it was spilled. */
  datatype SpilledBinding = SpilledBinding(schema: seq<Field>, file: nat, rows: nat, bytes: nat)

  type Disk = map<nat, seq<Batch>>

  /** A composed, not yet executed plan. `step` is the merge step that composed the node. */
  datatype Composed =
    | Mem(b: Batches)
    | Stream(spilled: SpilledBinding)
    | Node(step: nat, fragment: Fragment, inputs: seq<NamedInput>)

  datatype NamedInput = NamedInput(table: string, plan: Composed)

  datatype LazyRegion = LazyRegion(plan: Composed, inputBytes: nat)

  datatype Binding =
    | Materialized(b: Batches)
    | Keys(b: Batches)
    | Lazy(region: LazyRegion)
    | Spilled(spilled: SpilledBinding)

  // --- meaning ---------------------------------------------------------------------------------

  function SpilledTable(disk: Disk, s: SpilledBinding): Table {
    Table(s.schema, if s.file in disk then RowsOf(disk[s.file]) else [])
  }

  /** The relation a composed plan evaluates to. */
  function EvalPlan(w: World, disk: Disk, p: Composed): Table
    decreases p, 1
  {
    match p
    case Mem(b) => TableOf(b)
    case Stream(s) => SpilledTable(disk, s)
    case Node(_, fragment, inputs) => w.eval(fragment, EvalInputs(w, disk, inputs))
  }

  function EvalInputs(w: World, disk: Disk, inputs: seq<NamedInput>): seq<(string, Table)>
    decreases inputs, 0
  {
    if inputs == [] then []
    else EvalInputs(w, disk, inputs[..|inputs| - 1]) +
         [(inputs[|inputs| - 1].table, EvalPlan(w, disk, inputs[|inputs| - 1].plan))]
  }

  /** What a name stands for: a relation, or a set of keys. */
  datatype Meaning = Rel(t: Table) | KeySetOf(t: Table)

  function Denote(w: World, disk: Disk, b: Binding): Meaning {
    match b
    case Materialized(m) => Rel(TableOf(m))
    case Keys(m) => KeySetOf(TableOf(m))
    case Lazy(region) => Rel(EvalPlan(w, disk, region.plan))
    case Spilled(s) => Rel(SpilledTable(disk, s))
  }

  // --- files -----------------------------------------------------------------------------------

  /** Every file a plan streams from exists. */
  predicate FilesExist(disk: Disk, p: Composed)
    decreases p, 1
  {
    match p
    case Mem(_) => true
    case Stream(s) => s.file in disk
    case Node(_, _, inputs) => InputFilesExist(disk, inputs)
  }

  predicate InputFilesExist(disk: Disk, inputs: seq<NamedInput>)
    decreases inputs, 0
  {
    inputs == [] || (InputFilesExist(disk, inputs[..|inputs| - 1]) && FilesExist(disk, inputs[|inputs| - 1].plan))
  }

  predicate Readable(disk: Disk, b: Binding) {
    match b
    case Materialized(_) => true
    case Keys(_) => true
    case Lazy(region) => FilesExist(disk, region.plan)
    case Spilled(s) => s.file in disk
  }

  /** Files are only ever added. */
  predicate Grows(before: Disk, after: Disk) {
    forall f :: f in before ==> f in after && after[f] == before[f]
  }

  lemma {:induction false} PlanSurvivesGrowth(w: World, before: Disk, after: Disk, p: Composed)
    requires Grows(before, after) && FilesExist(before, p)
    ensures FilesExist(after, p) && EvalPlan(w, after, p) == EvalPlan(w, before, p)
    decreases p, 1
  {
    if p.Node? {
      InputsSurviveGrowth(w, before, after, p.inputs);
    }
  }

  lemma {:induction false} InputsSurviveGrowth(w: World, before: Disk, after: Disk, inputs: seq<NamedInput>)
    requires Grows(before, after) && InputFilesExist(before, inputs)
    ensures InputFilesExist(after, inputs) && EvalInputs(w, after, inputs) == EvalInputs(w, before, inputs)
    decreases inputs, 0
  {
    if inputs != [] {
      InputsSurviveGrowth(w, before, after, inputs[..|inputs| - 1]);
      PlanSurvivesGrowth(w, before, after, inputs[|inputs| - 1].plan);
    }
  }

  /** Adding files changes the meaning of no readable binding. */
  lemma {:induction false} BindingSurvivesGrowth(w: World, before: Disk, after: Disk, b: Binding)
    requires Grows(before, after) && Readable(before, b)
    ensures Readable(after, b) && Denote(w, after, b) == Denote(w, before, b)
  {
    if b.Lazy? {
      PlanSurvivesGrowth(w, before, after, b.region.plan);
    }
  }

  // --- measured volume and plan identity ---------------------------------------------------------

  /** Total bytes of the relations at a plan's leaves. */
  function LeafBytes(p: Composed): nat
    decreases p, 1
  {
    match p
    case Mem(b) => BytesOf(b.batches)
    case Stream(s) => s.bytes
    case Node(_, _, inputs) => InputLeafBytes(inputs)
  }

  function InputLeafBytes(inputs: seq<NamedInput>): nat
    decreases inputs, 0
  {
    if inputs == [] then 0 else InputLeafBytes(inputs[..|inputs| - 1]) + LeafBytes(inputs[|inputs| - 1].plan)
  }

  /** The relations at a plan's leaves, from left to right. */
  function Leaves(p: Composed): seq<Composed>
    decreases p, 1
  {
    match p
    case Mem(_) => [p]
    case Stream(_) => [p]
    case Node(_, _, inputs) => InputLeaves(inputs)
  }

  function InputLeaves(inputs: seq<NamedInput>): seq<Composed>
    decreases inputs, 0
  {
    if inputs == [] then [] else InputLeaves(inputs[..|inputs| - 1]) + Leaves(inputs[|inputs| - 1].plan)
  }

  /** The batches in memory among some leaves, and the bytes of those on disk. */
  function HeldBytes(leaves: seq<Composed>): nat {
    if leaves == [] then 0
    else
      (match leaves[0]
       case Mem(b) => BytesOf(b.batches)
       case Stream(s) => s.bytes
       case Node(_, _, _) => 0) + HeldBytes(leaves[1..])
  }

  lemma {:induction false} HeldAppend(a: seq<Composed>, b: seq<Composed>)
    ensures HeldBytes(a + b) == HeldBytes(a) + HeldBytes(b)
  {
    if a == [] {
      assert a + b == b;
    } else {
      assert (a + b)[1..] == a[1..] + b;
      HeldAppend(a[1..], b);
    }
  }

  /** A plan's volume is the sum over all of its leaves, each counted as often as it occurs. */
  lemma {:induction false} VolumeIsLeaves(p: Composed)
    ensures LeafBytes(p) == HeldBytes(Leaves(p))
    decreases p, 1
  {
    if p.Node? {
      InputVolumeIsLeaves(p.inputs);
    }
  }

  lemma {:induction false} InputVolumeIsLeaves(inputs: seq<NamedInput>)
    ensures InputLeafBytes(inputs) == HeldBytes(InputLeaves(inputs))
    decreases inputs, 0
  {
    if inputs != [] {
      InputVolumeIsLeaves(inputs[..|inputs| - 1]);
      VolumeIsLeaves(inputs[|inputs| - 1].plan);
      HeldAppend(InputLeaves(inputs[..|inputs| - 1]), Leaves(inputs[|inputs| - 1].plan));
    }
  }

  /** The merge steps whose composed plans a plan contains. */
  function Origins(p: Composed): set<nat>
    decreases p, 1
  {
    match p
    case Mem(_) => {}
    case Stream(_) => {}
    case Node(step, _, inputs) => {step} + InputOrigins(inputs)
  }

  function InputOrigins(inputs: seq<NamedInput>): set<nat>
    decreases inputs, 0
  {
    if inputs == [] then {} else InputOrigins(inputs[..|inputs| - 1]) + Origins(inputs[|inputs| - 1].plan)
  }

  /** No merge step's plan occurs twice inside a plan. */
  predicate OccursOnce(p: Composed)
    decreases p, 1
  {
    match p
    case Mem(_) => true
    case Stream(_) => true
    case Node(step, _, inputs) => step !in InputOrigins(inputs) && InputsOccurOnce(inputs)
  }

  predicate InputsOccurOnce(inputs: seq<NamedInput>)
    decreases inputs, 0
  {
    inputs == [] ||
    (var init, last := inputs[..|inputs| - 1], inputs[|inputs| - 1].plan;
     InputsOccurOnce(init) && OccursOnce(last) && InputOrigins(init) !! Origins(last))
  }

  /** How often a merge step's composed plan occurs inside a plan. */
  function Occurrences(p: Composed, step: nat): nat
    decreases p, 1
  {
    match p
    case Mem(_) => 0
    case Stream(_) => 0
    case Node(own, _, inputs) => (if own == step then 1 else 0) + InputOccurrences(inputs, step)
  }

  function InputOccurrences(inputs: seq<NamedInput>, step: nat): nat
    decreases inputs, 0
  {
    if inputs == [] then 0
    else InputOccurrences(inputs[..|inputs| - 1], step) + Occurrences(inputs[|inputs| - 1].plan, step)
  }

  lemma {:induction false} OccursOnceCounts(p: Composed, step: nat)
    requires OccursOnce(p)
    ensures Occurrences(p, step) == if step in Origins(p) then 1 else 0
    decreases p, 1
  {
    if p.Node? {
      InputsOccurOnceCount(p.inputs, step);
    }
  }

  lemma {:induction false} InputsOccurOnceCount(inputs: seq<NamedInput>, step: nat)
    requires InputsOccurOnce(inputs)
    ensures InputOccurrences(inputs, step) == if step in InputOrigins(inputs) then 1 else 0
    decreases inputs, 0
  {
    if inputs != [] {
      InputsOccurOnceCount(inputs[..|inputs| - 1], step);
      OccursOnceCounts(inputs[|inputs| - 1].plan, step);
    }
  }

  function OriginsOf(b: Binding): set<nat> {
    if b.Lazy? then Origins(b.region.plan) else {}
  }

  /** A lazy region is composed of distinct merge steps and carries the clamped bytes of its leaves. */
  predicate WellComposed(b: Binding) {
    b.Lazy? ==> OccursOnce(b.region.plan) && b.region.inputBytes == Clamp(LeafBytes(b.region.plan))
  }

  // --- resident bytes ----------------------------------------------------------------------------

  function Size(b: Binding): nat {
    if b.Materialized? then BytesOf(b.b.batches) else 0
  }

  /** Total bytes of the relations held in memory under a name. */
  ghost function ResidentBytes(m: map<string, Binding>): nat {
    if m == map[] then 0
    else var n :| n in m; Size(m[n]) + ResidentBytes(m - {n})
  }

  lemma {:induction false} ResidentWithout(m: map<string, Binding>, n: string)
    requires n in m
    ensures ResidentBytes(m) == Size(m[n]) + ResidentBytes(m - {n})
    decreases |m|
  {
    var k :| k in m && ResidentBytes(m) == Size(m[k]) + ResidentBytes(m - {k});
    if k != n {
      ResidentWithout(m - {k}, n);
      ResidentWithout(m - {n}, k);
      assert m - {k} - {n} == m - {n} - {k};
    }
  }

  /** A relation held in memory under a new name adds its bytes to what is resident, and any other form none. */
  lemma {:induction false} ResidentAdds(m: map<string, Binding>, n: string, b: Binding)
    requires n !in m
    ensures ResidentBytes(m[n := b]) == ResidentBytes(m) + if b.Materialized? then BytesOf(b.b.batches) else 0
    ensures ResidentBytes(map[]) == 0
  {
    ResidentUpdate(m, n, b);
  }

  lemma {:induction false} ResidentUpdate(m: map<string, Binding>, n: string, b: Binding)
    ensures ResidentBytes(m[n := b]) == ResidentBytes(m - {n}) + Size(b)
    ensures n !in m ==> m - {n} == m
  {
    ResidentWithout(m[n := b], n);
    assert m[n := b] - {n} == m - {n};
  }
}
