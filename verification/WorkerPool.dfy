/** The pool of reader threads: callers dispatch partition reads to worker queues and gather the replies in order. */
module WorkerPool {
  import opened Outcomes
  import D = Decimals

  /** A connection's parameters. */
  type Spec = string

  type Schema = seq<D.Field>

  /** What a connection attempt, a query and the final reconciliation do; none depends on the schedule. */
  datatype Env = Env(opens: Spec -> bool, query: (Spec, string) -> Result<D.Frame>,
                     reconcile: (Schema, seq<D.Batch>) -> Result<D.Frame>)

  /** The replies received so far: the schema of the first, and every batch in order. */
  datatype Gathering = Gathering(schema: Option<Schema>, batches: seq<D.Batch>)
  {
    function With(f: D.Frame): Gathering {
      Gathering(if schema.None? then Some(f.schema) else schema, batches + f.batches)
    }
  }

  /** A partition read, with the caller and the position its reply belongs to. */
  datatype Job = Job(name: string, spec: Spec, sql: string, caller: nat, index: nat)

  /** One reader thread: its queue, the job in hand, and its own connections by datasource name. */
  datatype Worker = Worker(queue: seq<Job>, busy: Option<Job>, conns: map<string, Spec>)

  /** One parallel read: jobs in range order, sent first, then received in the same order. */
  datatype Caller = Caller(jobs: seq<Job>, sent: nat, received: nat, replies: seq<Option<Result<D.Frame>>>,
                           gathered: Gathering, result: Option<Result<D.Frame>>)

  datatype State = State(workers: seq<Worker>, callers: seq<Caller>)

  datatype Action = Send(c: nat) | Take(w: nat) | Reply(w: nat) | Receive(c: nat) | Finish(c: nat)

  /** What a job delivers on a connection of its own. */
  function JobResult(env: Env, job: Job): Result<D.Frame> {
    if env.opens(job.spec) then env.query(job.spec, job.sql) else Err(Backend)
  }

  /** All partitions in order, or the error of the lowest-indexed one that fails. */
  function Outcome(env: Env, jobs: seq<Job>): Result<Gathering> {
    if jobs == [] then Ok(Gathering(None, []))
    else
      var init :- Outcome(env, jobs[..|jobs| - 1]);
      var last :- JobResult(env, jobs[|jobs| - 1]);
      Ok(init.With(last))
  }

  /** The batches reconciled under the first partition's schema. */
  function Reconciled(env: Env, g: Gathering): Result<D.Frame> {
    match g.schema
    case None => Err(BadSpec)
    case Some(schema) => env.reconcile(schema, g.batches)
  }

  /** What a parallel read returns. */
  function Delivered(env: Env, jobs: seq<Job>): Result<D.Frame> {
    var all :- Outcome(env, jobs);
    Reconciled(env, all)
  }

  // --- the steps ---------------------------------------------------------------------------------------

  predicate Waiting(st: State, c: nat) {
    c < |st.callers| && st.callers[c].result.None?
  }

  predicate Enabled(st: State, a: Action) {
    match a
    case Send(c) => Waiting(st, c) && st.callers[c].sent < |st.callers[c].jobs| && st.workers != []
    case Take(w) => w < |st.workers| && st.workers[w].busy.None? && st.workers[w].queue != []
    case Reply(w) => w < |st.workers| && st.workers[w].busy.Some?
    case Receive(c) =>
      && Waiting(st, c) && st.callers[c].sent == |st.callers[c].jobs|
      && st.callers[c].received < |st.callers[c].replies| && st.callers[c].replies[st.callers[c].received].Some?
    case Finish(c) => Waiting(st, c) && st.callers[c].received == |st.callers[c].jobs|
  }

  /** Serve a job on the worker's cached connection, opening it first if there is none. */
  function Serve(env: Env, conns: map<string, Spec>, job: Job): (map<string, Spec>, Result<D.Frame>) {
    if job.name in conns then (conns, env.query(conns[job.name], job.sql))
    else if env.opens(job.spec) then (conns[job.name := job.spec], env.query(job.spec, job.sql))
    else (conns, Err(Backend))
  }

  /** The channel of a caller that already gave up is gone, and the reply with it. */
  function Deliver(callers: seq<Caller>, job: Job, r: Result<D.Frame>): seq<Caller> {
    if job.caller < |callers| && callers[job.caller].result.None? && job.index < |callers[job.caller].replies|
    then callers[job.caller := callers[job.caller].(replies := callers[job.caller].replies[job.index := Some(r)])]
    else callers
  }

  function Apply(env: Env, st: State, a: Action): State
    requires Enabled(st, a)
  {
    match a
    case Send(c) =>
      var caller := st.callers[c];
      var w := caller.sent % |st.workers|;
      st.(workers := st.workers[w := st.workers[w].(queue := st.workers[w].queue + [caller.jobs[caller.sent]])],
          callers := st.callers[c := caller.(sent := caller.sent + 1)])
    case Take(w) =>
      var worker := st.workers[w];
      st.(workers := st.workers[w := worker.(busy := Some(worker.queue[0]), queue := worker.queue[1..])])
    case Reply(w) =>
      var worker := st.workers[w];
      var served := Serve(env, worker.conns, worker.busy.value);
      State(st.workers[w := worker.(busy := None, conns := served.0)], Deliver(st.callers, worker.busy.value, served.1))
    case Receive(c) =>
      var caller := st.callers[c];
      (match caller.replies[caller.received].value
       case Ok(f) => st.(callers :=
         st.callers[c := caller.(gathered := caller.gathered.With(f), received := caller.received + 1)])
       case Err(e) => st.(callers := st.callers[c := caller.(result := Some(Err(e)))]))
    case Finish(c) =>
      st.(callers := st.callers[c := st.callers[c].(result := Some(Reconciled(env, st.callers[c].gathered)))])
  }

  /** A schedule: any interleaving of enabled steps. */
  ghost predicate Runs(env: Env, st: State, schedule: seq<Action>, end: State)
    decreases |schedule|
  {
    if schedule == [] then end == st
    else Enabled(st, schedule[0]) && Runs(env, Apply(env, st, schedule[0]), schedule[1..], end)
  }

  /** A datasource name stands for one connection spec; nothing is sent, taken or received yet. */
  ghost predicate Initial(specs: map<string, Spec>, st: State) {
    && st.workers != []
    && (forall w :: 0 <= w < |st.workers| ==> st.workers[w] == Worker([], None, map[]))
    && (forall c :: 0 <= c < |st.callers| ==>
          && st.callers[c].sent == 0 && st.callers[c].received == 0 && st.callers[c].result.None?
          && st.callers[c].gathered == Gathering(None, [])
          && |st.callers[c].replies| == |st.callers[c].jobs|
          && (forall i :: 0 <= i < |st.callers[c].replies| ==> st.callers[c].replies[i].None?)
          && OwnJobs(specs, st.callers[c], c))
  }

  ghost predicate OwnJobs(specs: map<string, Spec>, caller: Caller, c: nat) {
    forall i :: 0 <= i < |caller.jobs| ==>
      var job := caller.jobs[i];
      job.caller == c && job.index == i && job.name in specs && job.spec == specs[job.name]
  }

  // --- what every step keeps -----------------------------------------------------------------------------

  ghost predicate CallerOk(env: Env, specs: map<string, Spec>, caller: Caller, c: nat) {
    && OwnJobs(specs, caller, c)
    && |caller.replies| == |caller.jobs|
    && caller.received <= caller.sent <= |caller.jobs|
    && (caller.received > 0 || caller.result.Some? ==> caller.sent == |caller.jobs|)
    && (forall i :: 0 <= i < |caller.replies| && caller.replies[i].Some? ==>
         caller.replies[i].value == JobResult(env, caller.jobs[i]))
    && Outcome(env, caller.jobs[..caller.received]) == Ok(caller.gathered)
    && (caller.result.Some? ==> caller.result.value == Delivered(env, caller.jobs))
  }

  ghost predicate WorkerOk(env: Env, specs: map<string, Spec>, worker: Worker) {
    forall n :: n in worker.conns ==> n in specs && worker.conns[n] == specs[n] && env.opens(specs[n])
  }

  /** A job in a worker's hands is one its caller sent to that worker. */
  predicate Dispatched(st: State, w: nat, job: Job) {
    && job.caller < |st.callers|
    && job.index < st.callers[job.caller].sent <= |st.callers[job.caller].jobs|
    && st.callers[job.caller].jobs[job.index] == job
  }

  /** A job is with worker `w`: queued or in hand. */
  predicate Holds(st: State, w: nat, job: Job) {
    w < |st.workers| && (job in st.workers[w].queue || st.workers[w].busy == Some(job))
  }

  ghost predicate Inv(env: Env, specs: map<string, Spec>, st: State) {
    && st.workers != []
    && (forall c :: 0 <= c < |st.callers| ==> CallerOk(env, specs, st.callers[c], c))
    && (forall w :: 0 <= w < |st.workers| ==> WorkerOk(env, specs, st.workers[w]))
    && (forall w, job :: Holds(st, w, job) ==> Dispatched(st, w, job))
    && NothingLost(st)
  }

  predicate Unanswered(st: State, c: nat, i: nat) {
    && Waiting(st, c) && i < st.callers[c].sent && i < |st.callers[c].jobs|
    && i < |st.callers[c].replies| && st.callers[c].replies[i].None?
  }

  /** A job sent and not yet answered is still with its worker. */
  ghost predicate NothingLost(st: State)
    requires st.workers != []
  {
    forall c: nat, i: nat :: Unanswered(st, c, i) ==> Holds(st, i % |st.workers|, st.callers[c].jobs[i])
  }

  lemma {:induction false} InitialInv(env: Env, specs: map<string, Spec>, st: State)
    requires Initial(specs, st)
    ensures Inv(env, specs, st)
  {
    forall c | 0 <= c < |st.callers| ensures CallerOk(env, specs, st.callers[c], c) {
      assert st.callers[c].jobs[..0] == [];
    }
  }

  lemma {:induction false} OutcomeSnoc(env: Env, jobs: seq<Job>, k: nat)
    requires k < |jobs| && Outcome(env, jobs[..k]).Ok?
    ensures JobResult(env, jobs[k]).Ok? ==>
              Outcome(env, jobs[..k + 1]) == Ok(Outcome(env, jobs[..k]).value.With(JobResult(env, jobs[k]).value))
    ensures JobResult(env, jobs[k]).Err? ==> Outcome(env, jobs) == Err(JobResult(env, jobs[k]).error)
  {
    assert jobs[..k + 1][..k] == jobs[..k];
    if JobResult(env, jobs[k]).Err? {
      OutcomeFails(env, jobs, k + 1);
    }
  }

  lemma {:induction false} OutcomeFails(env: Env, jobs: seq<Job>, k: nat)
    requires k <= |jobs| && Outcome(env, jobs[..k]).Err?
    ensures Outcome(env, jobs) == Outcome(env, jobs[..k])
  {
    if k == |jobs| {
      assert jobs[..k] == jobs;
    } else {
      assert jobs[..|jobs| - 1][..k] == jobs[..k];
      OutcomeFails(env, jobs[..|jobs| - 1], k);
    }
  }

  lemma {:induction false} ServesItsResult(env: Env, specs: map<string, Spec>, worker: Worker, job: Job)
    requires WorkerOk(env, specs, worker) && job.name in specs && job.spec == specs[job.name]
    ensures Serve(env, worker.conns, job).1 == JobResult(env, job)
    ensures WorkerOk(env, specs, worker.(busy := None, conns := Serve(env, worker.conns, job).0))
  {
  }

  /** An answered worker keeps every connection it has and the one the answer came over, so it opens each only once. */
  lemma {:induction false} ConnectionsStay(env: Env, st: State, w: nat)
    requires Enabled(st, Reply(w))
    ensures var job, before, after := st.workers[w].busy.value, st.workers[w].conns,
                                      Apply(env, st, Reply(w)).workers[w].conns;
            && (forall n :: n in before ==> n in after && after[n] == before[n])
            && (job.name in after <==> job.name in before || env.opens(job.spec))
            && (forall n :: n in after ==> n in before || n == job.name)
  {
  }

  lemma {:induction false} SendKeeps(env: Env, specs: map<string, Spec>, st: State, c: nat)
    requires Inv(env, specs, st) && Enabled(st, Send(c))
    ensures Inv(env, specs, Apply(env, st, Send(c)))
  {
    var after := Apply(env, st, Send(c));
    var caller := st.callers[c];
    var target := caller.sent % |st.workers|;
    forall w, job | Holds(after, w, job) ensures Dispatched(after, w, job) {
      if !Holds(st, w, job) {
        assert job == caller.jobs[caller.sent];
      }
    }
    forall d: nat, i: nat | Unanswered(after, d, i)
      ensures Holds(after, i % |after.workers|, after.callers[d].jobs[i])
    {
      if d == c && i == caller.sent {
        assert after.workers[target].queue[|st.workers[target].queue|] == caller.jobs[i];
      } else {
        assert Unanswered(st, d, i);
      }
    }
  }

  lemma {:induction false} TakeKeeps(env: Env, specs: map<string, Spec>, st: State, w: nat)
    requires Inv(env, specs, st) && Enabled(st, Take(w))
    ensures Inv(env, specs, Apply(env, st, Take(w)))
  {
    var after := Apply(env, st, Take(w));
    var queue := st.workers[w].queue;
    assert queue == [queue[0]] + queue[1..];
    forall v, job ensures Holds(after, v, job) <==> Holds(st, v, job) {
      assert job in queue <==> job == queue[0] || job in queue[1..];
    }
    forall v, job | Holds(after, v, job) ensures Dispatched(after, v, job) {
      assert Dispatched(st, v, job);
    }
  }

  lemma {:induction false} ReplyKeeps(env: Env, specs: map<string, Spec>, st: State, w: nat)
    requires Inv(env, specs, st) && Enabled(st, Reply(w))
    ensures Inv(env, specs, Apply(env, st, Reply(w)))
  {
    var after := Apply(env, st, Reply(w));
    var done := st.workers[w].busy.value;
    assert Holds(st, w, done);
    assert Dispatched(st, w, done);
    assert CallerOk(env, specs, st.callers[done.caller], done.caller);
    ServesItsResult(env, specs, st.workers[w], done);
    forall c | 0 <= c < |after.callers| ensures CallerOk(env, specs, after.callers[c], c) {
      assert CallerOk(env, specs, st.callers[c], c);
    }
    forall v, job | Holds(after, v, job) ensures Dispatched(after, v, job) {
      assert Holds(st, v, job) && Dispatched(st, v, job);
    }
    ReplyLosesNothing(env, specs, st, w);
  }

  /** The job answered was the only one to leave its worker. */
  lemma {:induction false} ReplyLosesNothing(env: Env, specs: map<string, Spec>, st: State, w: nat)
    requires Inv(env, specs, st) && Enabled(st, Reply(w))
    ensures NothingLost(Apply(env, st, Reply(w)))
  {
    var after := Apply(env, st, Reply(w));
    var done := st.workers[w].busy.value;
    assert Holds(st, w, done) && Dispatched(st, w, done);
    forall c: nat, i: nat | Unanswered(after, c, i)
      ensures Holds(after, i % |after.workers|, after.callers[c].jobs[i])
    {
      assert Unanswered(st, c, i);
      assert CallerOk(env, specs, st.callers[c], c);
      assert st.callers[c].jobs[i].caller == c && st.callers[c].jobs[i].index == i;
    }
  }

  lemma {:induction false} ReceiveKeeps(env: Env, specs: map<string, Spec>, st: State, c: nat)
    requires Inv(env, specs, st) && Enabled(st, Receive(c))
    ensures Inv(env, specs, Apply(env, st, Receive(c)))
  {
    var after := Apply(env, st, Receive(c));
    var caller := st.callers[c];
    assert CallerOk(env, specs, caller, c);
    OutcomeSnoc(env, caller.jobs, caller.received);
    assert CallerOk(env, specs, after.callers[c], c);
    OnlyCallerChanged(env, specs, st, after, c);
  }

  lemma {:induction false} FinishKeeps(env: Env, specs: map<string, Spec>, st: State, c: nat)
    requires Inv(env, specs, st) && Enabled(st, Finish(c))
    ensures Inv(env, specs, Apply(env, st, Finish(c)))
  {
    var after := Apply(env, st, Finish(c));
    var caller := st.callers[c];
    assert CallerOk(env, specs, caller, c);
    assert caller.jobs[..|caller.jobs|] == caller.jobs;
    assert CallerOk(env, specs, after.callers[c], c);
    OnlyCallerChanged(env, specs, st, after, c);
  }

  /** A caller that only consumed replies leaves every job where it is. */
  lemma {:induction false} OnlyCallerChanged(env: Env, specs: map<string, Spec>, st: State, after: State, c: nat)
    requires Inv(env, specs, st) && c < |st.callers| == |after.callers| && after.workers == st.workers
    requires after.callers == st.callers[c := after.callers[c]] && CallerOk(env, specs, after.callers[c], c)
    requires after.callers[c].jobs == st.callers[c].jobs && after.callers[c].sent == st.callers[c].sent
    requires after.callers[c].replies == st.callers[c].replies && st.callers[c].result.None?
    ensures Inv(env, specs, after)
  {
    forall w, job | Holds(after, w, job) ensures Dispatched(after, w, job) {
      assert Holds(st, w, job) && Dispatched(st, w, job);
    }
    forall d: nat, i: nat | Unanswered(after, d, i)
      ensures Holds(after, i % |after.workers|, after.callers[d].jobs[i])
    {
      assert Unanswered(st, d, i);
    }
  }

  lemma {:induction false} StepKeeps(env: Env, specs: map<string, Spec>, st: State, a: Action)
    requires Inv(env, specs, st) && Enabled(st, a)
    ensures Inv(env, specs, Apply(env, st, a))
  {
    match a
    case Send(c) => SendKeeps(env, specs, st, c);
    case Take(w) => TakeKeeps(env, specs, st, w);
    case Reply(w) => ReplyKeeps(env, specs, st, w);
    case Receive(c) => ReceiveKeeps(env, specs, st, c);
    case Finish(c) => FinishKeeps(env, specs, st, c);
  }

  lemma {:induction false} RunKeeps(env: Env, specs: map<string, Spec>, st: State, schedule: seq<Action>, end: State)
    requires Inv(env, specs, st) && Runs(env, st, schedule, end)
    ensures Inv(env, specs, end)
    ensures |end.callers| == |st.callers| && forall c :: 0 <= c < |st.callers| ==>
              end.callers[c].jobs == st.callers[c].jobs
    decreases |schedule|
  {
    if schedule != [] {
      StepKeeps(env, specs, st, schedule[0]);
      RunKeeps(env, specs, Apply(env, st, schedule[0]), schedule[1..], end);
    }
  }

  /**
   * Whatever the interleaving of workers and concurrent callers, a caller that has a result has the partitions
   * concatenated in range order and reconciled, or the error of its lowest-indexed failing partition.
   */
  lemma {:induction false} ScheduleIndependent(env: Env, specs: map<string, Spec>, st: State, schedule: seq<Action>,
                                               end: State, c: nat)
    requires Initial(specs, st) && Runs(env, st, schedule, end)
    requires c < |end.callers| && end.callers[c].result.Some?
    ensures c < |st.callers| && end.callers[c].result.value == Delivered(env, st.callers[c].jobs)
  {
    InitialInv(env, specs, st);
    RunKeeps(env, specs, st, schedule, end);
    assert CallerOk(env, specs, end.callers[c], c);
  }

  // --- progress ----------------------------------------------------------------------------------------------

  /** While a caller waits, some step is enabled. */
  lemma {:induction false} NoDeadlock(env: Env, specs: map<string, Spec>, st: State, schedule: seq<Action>, end: State,
                                      c: nat)
    requires Initial(specs, st) && Runs(env, st, schedule, end) && Waiting(end, c)
    ensures exists a :: Enabled(end, a)
  {
    InitialInv(env, specs, st);
    RunKeeps(env, specs, st, schedule, end);
    WaitingCanStep(env, specs, end, c);
  }

  lemma {:induction false} WaitingCanStep(env: Env, specs: map<string, Spec>, st: State, c: nat)
    requires Inv(env, specs, st) && Waiting(st, c)
    ensures exists a :: Enabled(st, a)
  {
    var caller := st.callers[c];
    assert CallerOk(env, specs, caller, c);
    if caller.sent < |caller.jobs| {
      assert Enabled(st, Send(c));
    } else if caller.received == |caller.jobs| {
      assert Enabled(st, Finish(c));
    } else if caller.replies[caller.received].Some? {
      assert Enabled(st, Receive(c));
    } else {
      var w := caller.received % |st.workers|;
      assert Unanswered(st, c, caller.received);
      if st.workers[w].busy.Some? {
        assert Enabled(st, Reply(w));
      } else {
        assert Enabled(st, Take(w));
      }
    }
  }

  function CallerWork(caller: Caller): nat {
    (if caller.sent <= |caller.jobs| then 4 * (|caller.jobs| - caller.sent) else 0) +
    (if caller.received <= |caller.jobs| then |caller.jobs| - caller.received else 0) +
    (if caller.result.None? then 1 else 0)
  }

  function WorkerWork(worker: Worker): nat {
    3 * |worker.queue| + if worker.busy.Some? then 1 else 0
  }

  function CallersWork(callers: seq<Caller>): nat {
    if callers == [] then 0 else CallerWork(callers[0]) + CallersWork(callers[1..])
  }

  function WorkersWork(workers: seq<Worker>): nat {
    if workers == [] then 0 else WorkerWork(workers[0]) + WorkersWork(workers[1..])
  }

  /** Jobs not sent, queued or in hand, replies not received, callers not finished. */
  function Work(st: State): nat {
    CallersWork(st.callers) + WorkersWork(st.workers)
  }

  lemma {:induction false} CallersWorkUpdate(callers: seq<Caller>, c: nat, caller: Caller)
    requires c < |callers|
    ensures CallersWork(callers[c := caller]) + CallerWork(callers[c]) == CallersWork(callers) + CallerWork(caller)
  {
    var after := callers[c := caller];
    if c == 0 {
      assert after[1..] == callers[1..];
    } else {
      assert after[1..] == callers[1..][c - 1 := caller];
      CallersWorkUpdate(callers[1..], c - 1, caller);
    }
  }

  lemma {:induction false} WorkersWorkUpdate(workers: seq<Worker>, w: nat, worker: Worker)
    requires w < |workers|
    ensures WorkersWork(workers[w := worker]) + WorkerWork(workers[w]) == WorkersWork(workers) + WorkerWork(worker)
  {
    var after := workers[w := worker];
    if w == 0 {
      assert after[1..] == workers[1..];
    } else {
      assert after[1..] == workers[1..][w - 1 := worker];
      WorkersWorkUpdate(workers[1..], w - 1, worker);
    }
  }

  lemma {:induction false} SendWorks(env: Env, specs: map<string, Spec>, st: State, c: nat)
    requires Inv(env, specs, st) && Enabled(st, Send(c))
    ensures Work(Apply(env, st, Send(c))) < Work(st)
  {
    var after := Apply(env, st, Send(c));
    assert CallerOk(env, specs, st.callers[c], c);
    var w := st.callers[c].sent % |st.workers|;
    CallersWorkUpdate(st.callers, c, after.callers[c]);
    WorkersWorkUpdate(st.workers, w, after.workers[w]);
  }

  lemma {:induction false} ReplyWorks(env: Env, specs: map<string, Spec>, st: State, w: nat)
    requires Inv(env, specs, st) && Enabled(st, Reply(w))
    ensures Work(Apply(env, st, Reply(w))) < Work(st)
  {
    var after := Apply(env, st, Reply(w));
    var job := st.workers[w].busy.value;
    WorkersWorkUpdate(st.workers, w, after.workers[w]);
    assert Holds(st, w, job);
    assert Dispatched(st, w, job);
    CallersWorkUpdate(st.callers, job.caller, after.callers[job.caller]);
  }

  lemma {:induction false} ReceiveWorks(env: Env, specs: map<string, Spec>, st: State, c: nat)
    requires Inv(env, specs, st) && Enabled(st, Receive(c))
    ensures Work(Apply(env, st, Receive(c))) < Work(st)
  {
    assert CallerOk(env, specs, st.callers[c], c);
    CallersWorkUpdate(st.callers, c, Apply(env, st, Receive(c)).callers[c]);
  }

  lemma {:induction false} StepWorks(env: Env, specs: map<string, Spec>, st: State, a: Action)
    requires Inv(env, specs, st) && Enabled(st, a)
    ensures Work(Apply(env, st, a)) < Work(st)
  {
    match a
    case Send(c) => SendWorks(env, specs, st, c);
    case Take(w) => WorkersWorkUpdate(st.workers, w, Apply(env, st, a).workers[w]);
    case Reply(w) => ReplyWorks(env, specs, st, w);
    case Receive(c) => ReceiveWorks(env, specs, st, c);
    case Finish(c) => CallersWorkUpdate(st.callers, c, Apply(env, st, a).callers[c]);
  }

  /** Every schedule is finite: it has at most as many steps as there is work. */
  lemma {:induction false} SchedulesTerminate(env: Env, specs: map<string, Spec>, st: State, schedule: seq<Action>,
                                              end: State)
    requires Inv(env, specs, st) && Runs(env, st, schedule, end)
    ensures |schedule| + Work(end) <= Work(st)
    decreases |schedule|
  {
    if schedule != [] {
      StepWorks(env, specs, st, schedule[0]);
      StepKeeps(env, specs, st, schedule[0]);
      SchedulesTerminate(env, specs, Apply(env, st, schedule[0]), schedule[1..], end);
    }
  }

  /** A schedule that can go no further has given every caller its outcome. */
  lemma {:induction false} MaximalSchedulesFinish(env: Env, specs: map<string, Spec>, st: State, schedule: seq<Action>,
                                                  end: State)
    requires Initial(specs, st) && Runs(env, st, schedule, end) && !exists a :: Enabled(end, a)
    ensures |end.callers| == |st.callers|
    ensures forall c :: 0 <= c < |end.callers| ==> end.callers[c].result == Some(Delivered(env, st.callers[c].jobs))
    ensures |schedule| <= Work(st)
  {
    InitialInv(env, specs, st);
    RunKeeps(env, specs, st, schedule, end);
    SchedulesTerminate(env, specs, st, schedule, end);
    forall c | 0 <= c < |end.callers| ensures end.callers[c].result == Some(Delivered(env, st.callers[c].jobs)) {
      if Waiting(end, c) {
        NoDeadlock(env, specs, st, schedule, end, c);
      } else {
        ScheduleIndependent(env, specs, st, schedule, end, c);
      }
    }
  }

  /** The gathering loop of one caller, over its replies in range order; it stops at the first error. */
  method GatherReplies(env: Env, ghost specs: map<string, Spec>, caller: Caller,
                       ghost c: nat) returns (r: Result<D.Frame>)
    requires CallerOk(env, specs, caller, c)
    requires forall i :: 0 <= i < |caller.replies| ==> caller.replies[i].Some?
    ensures r == Delivered(env, caller.jobs)
  {
    var all := Gathering(None, []);
    for i := 0 to |caller.replies|
      invariant Outcome(env, caller.jobs[..i]) == Ok(all)
    {
      OutcomeSnoc(env, caller.jobs, i);
      var joined := caller.replies[i].value;
      if joined.Err? {
        return Err(joined.error);
      }
      all := all.With(joined.value);
    }
    assert caller.jobs[..|caller.jobs|] == caller.jobs;
    return Reconciled(env, all);
  }

  // --- the order of service -------------------------------------------------------------------------------

  /** A caller that has its result is never touched again. */
  lemma {:induction false} FinishedStay(env: Env, st: State, a: Action, c: nat)
    requires Enabled(st, a) && c < |st.callers| && st.callers[c].result.Some?
    ensures c < |Apply(env, st, a).callers| && Apply(env, st, a).callers[c] == st.callers[c]
  {
  }

  /** A read without partitions has no schema to report. */
  lemma {:induction false} NoPartitions(env: Env)
    ensures Delivered(env, []) == Err(BadSpec)
  {
  }

  /** Among one caller's jobs a worker takes up the lower-indexed first. */
  predicate Before(a: Job, b: Job) {
    a.caller == b.caller ==> a.index < b.index
  }

  /** A worker's jobs are its own, and queued behind the job in hand in the order sent. */
  ghost predicate InLine(workers: nat, w: nat, worker: Worker)
    requires 0 < workers
  {
    && (forall k :: 0 <= k < |worker.queue| ==> worker.queue[k].index % workers == w)
    && (worker.busy.Some? ==> worker.busy.value.index % workers == w)
    && (forall j, k :: 0 <= j < k < |worker.queue| ==> Before(worker.queue[j], worker.queue[k]))
    && (worker.busy.Some? ==> forall k :: 0 <= k < |worker.queue| ==> Before(worker.busy.value, worker.queue[k]))
  }

  /** While a job is with its worker, none of the caller's later jobs on that worker is answered. */
  ghost predicate NoneAfter(callers: seq<Caller>, workers: nat, job: Job)
    requires 0 < workers && job.caller < |callers|
  {
    forall i: nat :: job.index <= i < |callers[job.caller].replies| && i % workers == job.index % workers ==>
      callers[job.caller].replies[i].None?
  }

  /** Nothing is answered before it is sent. */
  ghost predicate AnsweredWereSent(caller: Caller) {
    forall i :: 0 <= i < |caller.replies| && caller.replies[i].Some? ==> i < caller.sent
  }

  ghost predicate InOrder(st: State)
    requires st.workers != []
  {
    && (forall w :: 0 <= w < |st.workers| ==> InLine(|st.workers|, w, st.workers[w]))
    && (forall c :: 0 <= c < |st.callers| ==> AnsweredWereSent(st.callers[c]))
    && (forall w, job :: Holds(st, w, job) && job.caller < |st.callers| ==>
         NoneAfter(st.callers, |st.workers|, job))
  }

  /** The job sent comes after everything that its worker holds for the same caller. */
  lemma {:induction false} SentIsLast(env: Env, specs: map<string, Spec>, st: State, c: nat)
    requires Inv(env, specs, st) && InOrder(st) && Enabled(st, Send(c))
    ensures var target := st.callers[c].sent % |st.workers|;
            InLine(|st.workers|, target, Apply(env, st, Send(c)).workers[target])
  {
    var caller := st.callers[c];
    var job, target := caller.jobs[caller.sent], caller.sent % |st.workers|;
    var queue := st.workers[target].queue;
    assert CallerOk(env, specs, caller, c);
    assert job.caller == c && job.index == caller.sent;
    forall held | held in queue || st.workers[target].busy == Some(held) ensures Before(held, job) {
      assert Holds(st, target, held) && Dispatched(st, target, held);
    }
    assert InLine(|st.workers|, target, st.workers[target]);
  }

  lemma {:induction false} SendInOrder(env: Env, specs: map<string, Spec>, st: State, c: nat)
    requires Inv(env, specs, st) && InOrder(st) && Enabled(st, Send(c))
    ensures InOrder(Apply(env, st, Send(c)))
  {
    var after, caller := Apply(env, st, Send(c)), st.callers[c];
    var job := caller.jobs[caller.sent];
    assert CallerOk(env, specs, caller, c) && AnsweredWereSent(caller);
    assert job.caller == c && job.index == caller.sent;
    SentIsLast(env, specs, st, c);
    forall w | 0 <= w < |after.workers| ensures InLine(|after.workers|, w, after.workers[w]) {
      assert InLine(|st.workers|, w, st.workers[w]);
    }
    forall w, held | Holds(after, w, held) && held.caller < |after.callers|
      ensures NoneAfter(after.callers, |after.workers|, held)
    {
      SentKeepsNone(env, st, c, w, held);
    }
  }

  lemma {:induction false} SentKeepsNone(env: Env, st: State, c: nat, w: nat, held: Job)
    requires st.workers != [] && InOrder(st) && Enabled(st, Send(c)) && held.caller < |st.callers|
    requires Holds(Apply(env, st, Send(c)), w, held)
    requires var job := st.callers[c].jobs[st.callers[c].sent]; job.caller == c && job.index == st.callers[c].sent
    ensures NoneAfter(Apply(env, st, Send(c)).callers, |st.workers|, held)
  {
    assert AnsweredWereSent(st.callers[c]);
    if Holds(st, w, held) {
      assert NoneAfter(st.callers, |st.workers|, held);
    } else {
      assert held == st.callers[c].jobs[st.callers[c].sent];
    }
  }

  lemma {:induction false} TakeInOrder(env: Env, specs: map<string, Spec>, st: State, w: nat)
    requires Inv(env, specs, st) && InOrder(st) && Enabled(st, Take(w))
    ensures InOrder(Apply(env, st, Take(w)))
  {
    var after, queue := Apply(env, st, Take(w)), st.workers[w].queue;
    assert InLine(|st.workers|, w, st.workers[w]);
    assert forall k :: 0 <= k < |queue[1..]| ==> queue[1..][k] == queue[k + 1];
    forall v, job | Holds(after, v, job) && job.caller < |after.callers|
      ensures NoneAfter(after.callers, |after.workers|, job)
    {
      assert job in queue[1..] ==> job in queue;
      assert queue[0] in queue;
      assert Holds(st, v, job) && NoneAfter(st.callers, |st.workers|, job);
    }
  }

  lemma {:induction false} ReplyInOrder(env: Env, specs: map<string, Spec>, st: State, w: nat)
    requires Inv(env, specs, st) && InOrder(st) && Enabled(st, Reply(w))
    ensures InOrder(Apply(env, st, Reply(w)))
  {
    var after, done := Apply(env, st, Reply(w)), st.workers[w].busy.value;
    assert InLine(|st.workers|, w, st.workers[w]);
    assert Holds(st, w, done) && Dispatched(st, w, done);
    forall c | 0 <= c < |after.callers| ensures AnsweredWereSent(after.callers[c]) {
      assert AnsweredWereSent(st.callers[c]);
    }
    forall v, job | Holds(after, v, job) && job.caller < |after.callers|
      ensures NoneAfter(after.callers, |after.workers|, job)
    {
      assert Holds(st, v, job) && NoneAfter(st.callers, |st.workers|, job);
      BehindInLine(st, v, job, w);
    }
  }

  /** A job still held on the same worker for the same caller comes after the one in hand. */
  lemma {:induction false} BehindInLine(st: State, v: nat, job: Job, w: nat)
    requires st.workers != [] && InOrder(st) && w < |st.workers| && st.workers[w].busy.Some?
    requires Holds(st, v, job)
    ensures job.index % |st.workers| == v
    ensures v == w && job in st.workers[w].queue ==> Before(st.workers[w].busy.value, job)
  {
    assert InLine(|st.workers|, v, st.workers[v]);
    if job in st.workers[v].queue {
      var k :| 0 <= k < |st.workers[v].queue| && st.workers[v].queue[k] == job;
    }
  }

  lemma {:induction false} CallerInOrder(st: State, after: State, c: nat)
    requires st.workers != [] && InOrder(st) && after.workers == st.workers && c < |st.callers| == |after.callers|
    requires after.callers == st.callers[c := after.callers[c]]
    requires after.callers[c].replies == st.callers[c].replies && after.callers[c].sent == st.callers[c].sent
    ensures InOrder(after)
  {
    assert AnsweredWereSent(st.callers[c]);
    forall w, job | Holds(after, w, job) && job.caller < |after.callers|
      ensures NoneAfter(after.callers, |after.workers|, job)
    {
      assert Holds(st, w, job) && NoneAfter(st.callers, |st.workers|, job);
    }
  }

  lemma {:induction false} StepInOrder(env: Env, specs: map<string, Spec>, st: State, a: Action)
    requires Inv(env, specs, st) && InOrder(st) && Enabled(st, a)
    ensures Apply(env, st, a).workers != [] && InOrder(Apply(env, st, a))
  {
    match a
    case Send(c) => SendInOrder(env, specs, st, c);
    case Take(w) => TakeInOrder(env, specs, st, w);
    case Reply(w) => ReplyInOrder(env, specs, st, w);
    case Receive(c) => CallerInOrder(st, Apply(env, st, a), c);
    case Finish(c) => CallerInOrder(st, Apply(env, st, a), c);
  }

  lemma {:induction false} RunInOrder(env: Env, specs: map<string, Spec>, st: State, schedule: seq<Action>, end: State)
    requires Inv(env, specs, st) && InOrder(st) && Runs(env, st, schedule, end)
    ensures Inv(env, specs, end) && InOrder(end)
    decreases |schedule|
  {
    if schedule != [] {
      StepKeeps(env, specs, st, schedule[0]);
      StepInOrder(env, specs, st, schedule[0]);
      RunInOrder(env, specs, Apply(env, st, schedule[0]), schedule[1..], end);
    }
  }

  lemma {:induction false} LaterUnanswered(env: Env, specs: map<string, Spec>, st: State, c: nat, i: nat, j: nat)
    requires Inv(env, specs, st) && InOrder(st) && Unanswered(st, c, j)
    requires j < i < |st.callers[c].replies| && j % |st.workers| == i % |st.workers|
    ensures st.callers[c].replies[i].None?
  {
    var job := st.callers[c].jobs[j];
    assert CallerOk(env, specs, st.callers[c], c);
    assert Holds(st, j % |st.workers|, job) && job.caller == c && job.index == j;
    assert NoneAfter(st.callers, |st.workers|, job);
  }

  /** Under every schedule each worker answers a waiting caller's jobs in the order they were sent. */
  lemma {:induction false} AnsweredInOrder(env: Env, specs: map<string, Spec>, st: State, schedule: seq<Action>,
                                           end: State, c: nat, i: nat, j: nat)
    requires Initial(specs, st) && Runs(env, st, schedule, end)
    requires Waiting(end, c) && j < i < |end.callers[c].replies| && end.callers[c].replies[i].Some?
    ensures end.workers != []
    ensures j % |end.workers| == i % |end.workers| ==> end.callers[c].replies[j].Some?
  {
    InitialInv(env, specs, st);
    forall w | 0 <= w < |st.workers| ensures InLine(|st.workers|, w, st.workers[w]) {
    }
    RunInOrder(env, specs, st, schedule, end);
    if j % |end.workers| == i % |end.workers| && end.callers[c].replies[j].None? {
      assert CallerOk(env, specs, end.callers[c], c) && AnsweredWereSent(end.callers[c]);
      LaterUnanswered(env, specs, end, c, i, j);
    }
  }
}
