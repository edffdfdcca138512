/** The whole protocol around one workflow as a step relation: publisher, queue,
    any number of workers on any number of deliveries, human approvals and the
    reconciler, with crashes, redeliveries and lease expiry as steps of their own.
    Every database transaction is one step; everything between transactions can
    interleave. */
module Protocol {
  import opened WorkflowTypes
  import opened TransitionTable
  import opened Engine
  import opened Reconcile
  import Worker

  /** A stream entry, published from outbox row `row`. `acked` holds the row
      version at which the acknowledging worker had looked at the workflow. */
  datatype Entry = Entry(row: nat, task: nat, attempt: nat, acked: Option<nat>)

  datatype Fault = RetryableFault | FatalFault | NoHandlerFault

  /** Where one delivery stands between two steps of the consume loop. */
  datatype Phase =
    | Loaded                  // task record read
    | Skipping                // found stale, about to acknowledge
    | Proceeding              // stale check passed
    | Leased                  // lease acquired
    | Running                 // pre-check passed, handler transaction open
    | Duplicate               // key already claimed, about to acknowledge
    | Committed               // handler transaction committed
    | Released                // lease given back, about to acknowledge
    | Caught(fault: Fault)    // exception caught, failure path not yet run
    | DeadEnd                 // workflow failed, about to acknowledge
    | Ended                   // returned, or crashed

  /** One delivery in the hands of a worker: the entry, the effective attempt,
      and the row version at the stale check. */
  datatype Exec = Exec(entry: nat, attempt: nat, seen: nat, phase: Phase)

  /** `leases[t]` is the delivery that holds the lease on task t. */
  datatype Store = Store(
    db: Durable,
    queue: seq<Entry>,
    execs: seq<Exec>,
    leases: map<nat, nat>,
    scanned: seq<Candidate>)

  datatype Event =
    | Enqueue(row: nat)
    | MarkPublished(row: nat)
    | Receive(entry: nat)
    | Classify(x: nat)
    | Defer(x: nat)
    | Acquire(x: nat)
    | PreCheck(x: nat)
    | Commit(x: nat, signal: Signal)
    | Raise(x: nat, fault: Fault)
    | HandleFailure(x: nat)
    | Release(x: nat)
    | Ack(x: nat)
    | Crash(x: nat)
    | ExpireLease(task: nat)
    | HumanAction(action: ApprovalAction)
    | CollectCandidate(candidate: Candidate, elapsed: real)
    | RepairCandidate(n: nat, elapsed: real)

  function Init(): Store {
    Store(Initiate(), [], [], map[], [])
  }

  predicate InRange(s: Store, x: nat) {
    && x < |s.execs|
    && s.execs[x].entry < |s.queue|
    && s.queue[s.execs[x].entry].task < |s.db.tasks|
  }

  function TaskOf(s: Store, x: nat): nat
    requires InRange(s, x)
  {
    s.queue[s.execs[x].entry].task
  }

  function KindOf(s: Store, x: nat): TaskType
    requires InRange(s, x)
  {
    s.db.tasks[TaskOf(s, x)].kind
  }

  function ExecKey(s: Store, x: nat): Key
    requires InRange(s, x)
  {
    KeyOf(s.db.tasks[TaskOf(s, x)])
  }

  /** Phases from which the next step acknowledges the entry. */
  predicate Acking(p: Phase) {
    p.Skipping? || p.Duplicate? || p.Released? || p.DeadEnd?
  }

  predicate CanRaise(p: Phase, fault: Fault) {
    match fault
    case RetryableFault => p.Leased? || p.Running?
    case NoHandlerFault => p.Running?
    case FatalFault => p.Proceeding? || p.Leased? || p.Running? || p.Duplicate? || p.Committed? || p.Released?
  }

  predicate Enabled(s: Store, ev: Event) {
    match ev
    case Enqueue(o) => o < |s.db.outbox| && s.db.outbox[o].task < |s.db.tasks|
    case MarkPublished(o) => o < |s.db.outbox| && exists i :: 0 <= i < |s.queue| && s.queue[i].row == o
    case Receive(i) => i < |s.queue| && s.queue[i].task < |s.db.tasks| && s.queue[i].acked.None?
    case Classify(x) => InRange(s, x) && s.execs[x].phase.Loaded?
    case Defer(x) => InRange(s, x) && s.execs[x].phase.Proceeding?
    case Acquire(x) => InRange(s, x) && s.execs[x].phase.Proceeding?
    case PreCheck(x) => InRange(s, x) && s.execs[x].phase.Leased?
    case Commit(x, _) => InRange(s, x) && s.execs[x].phase.Running?
    case Raise(x, fault) => InRange(s, x) && CanRaise(s.execs[x].phase, fault)
    case HandleFailure(x) => InRange(s, x) && s.execs[x].phase.Caught?
    case Release(x) => InRange(s, x) && s.execs[x].phase.Committed?
    case Ack(x) => InRange(s, x) && Acking(s.execs[x].phase)
    case Crash(x) => InRange(s, x) && !s.execs[x].phase.Ended?
    case ExpireLease(t) => t in s.leases
    case HumanAction(_) => true
    case CollectCandidate(c, elapsed) => Justified(c, s.db, elapsed)
    case RepairCandidate(n, _) => n < |s.scanned|
  }

  function To(s: Store, x: nat, p: Phase): Store
    requires x < |s.execs|
  {
    s.(execs := s.execs[x := s.execs[x].(phase := p)])
  }

  function FreeLease(s: Store, x: nat): Store
    requires InRange(s, x)
  {
    var t := TaskOf(s, x);
    if t in s.leases && s.leases[t] == x then s.(leases := s.leases - {t}) else s
  }

  /** The delivery returns; its lease is given back if it still holds it. */
  function Finish(s: Store, x: nat): Store
    requires InRange(s, x)
  {
    To(FreeLease(s, x), x, Ended)
  }

  /** The delivery after its handler transaction, given that transaction's outcome. */
  function CommittedWith(s: Store, x: nat, r: Outcome): Store
    requires InRange(s, x)
  {
    if r.Done? then To(s, x, Committed).(db := r.db) else To(s, x, Caught(FatalFault))
  }

  function CommitStep(cfg: Config, s: Store, x: nat, signal: Signal): Store
    requires InRange(s, x)
  {
    CommittedWith(s, x, Worker.Commit(cfg.handlers, cfg.maxRevisions, s.db, TaskOf(s, x), signal))
  }

  predicate Exhausted(cfg: Config, s: Store, x: nat)
    requires InRange(s, x)
  {
    s.execs[x].attempt >= cfg.attempts(KindOf(s, x))
  }

  predicate Retries(cfg: Config, s: Store, x: nat)
    requires InRange(s, x) && s.execs[x].phase.Caught?
  {
    s.execs[x].phase.fault.RetryableFault? && !Exhausted(cfg, s, x)
  }

  /** The delivery after its failure transaction, given that transaction's outcome. */
  function FailedWith(s: Store, x: nat, r: Outcome): Store
    requires InRange(s, x)
  {
    if r.Done? then To(s, x, DeadEnd).(db := r.db) else Finish(s, x)
  }

  function FailureStep(cfg: Config, s: Store, x: nat): Store
    requires InRange(s, x) && s.execs[x].phase.Caught?
  {
    var t := TaskOf(s, x);
    if Retries(cfg, s, x) then Finish(s, x).(db := Worker.RetryTask(s.db, t, s.execs[x].attempt))
    else
      var exhausted := Exhausted(cfg, s, x) && !s.execs[x].phase.fault.NoHandlerFault?;
      FailedWith(s, x, Worker.FailTask(cfg.maxRevisions, s.db, t, exhausted))
  }

  function AckStep(s: Store, x: nat): Store
    requires InRange(s, x)
  {
    var i := s.execs[x].entry;
    if s.queue[i].acked.None? then
      Finish(s, x).(queue := s.queue[i := s.queue[i].(acked := Some(s.execs[x].seen))])
    else if s.execs[x].phase.Duplicate? || s.execs[x].phase.Released? then To(s, x, Caught(FatalFault))
    else Finish(s, x)
  }

  function Next(cfg: Config, s: Store, ev: Event): Store
    requires Enabled(s, ev)
  {
    match ev
    case Enqueue(o) =>
      var t := s.db.outbox[o].task;
      s.(queue := s.queue + [Entry(o, t, s.db.tasks[t].attempt, None)])
    case MarkPublished(o) =>
      s.(db := s.db.(outbox := s.db.outbox[o := s.db.outbox[o].(published := true)]))
    case Receive(i) =>
      var attempt := Worker.EffectiveAttempt(s.db.tasks[s.queue[i].task], s.queue[i].attempt);
      s.(execs := s.execs + [Exec(i, attempt, 0, Loaded)])
    case Classify(x) =>
      var phase := if ClassifyStaleTask(s.db.row.state, KindOf(s, x)).Proceed? then Proceeding else Skipping;
      s.(execs := s.execs[x := s.execs[x].(seen := s.db.row.version, phase := phase)])
    case Defer(x) => To(s, x, Ended)
    case Acquire(x) =>
      if TaskOf(s, x) in s.leases then To(s, x, Ended)
      else To(s, x, Leased).(leases := s.leases[TaskOf(s, x) := x])
    case PreCheck(x) => To(s, x, if ExecKey(s, x) in s.db.claims then Duplicate else Running)
    case Commit(x, signal) => CommitStep(cfg, s, x, signal)
    case Raise(x, fault) => To(s, x, Caught(fault))
    case HandleFailure(x) => FailureStep(cfg, s, x)
    case Release(x) => To(FreeLease(s, x), x, Released)
    case Ack(x) => AckStep(s, x)
    case Crash(x) => To(s, x, Ended)
    case ExpireLease(t) => s.(leases := s.leases - {t})
    case HumanAction(action) =>
      var r := ApplyApproval(s.db, action);
      if r.Done? then s.(db := r.db) else s
    case CollectCandidate(c, _) => s.(scanned := s.scanned + [c])
    case RepairCandidate(n, elapsed) =>
      var r := RepairOne(cfg, s.db, s.scanned[n], elapsed);
      if r.Repaired? then s.(db := r.db) else s
  }

  ghost predicate Run(cfg: Config, states: seq<Store>, events: seq<Event>) {
    && ValidConfig(cfg)
    && |states| == |events| + 1
    && states[0] == Init()
    && forall i :: 0 <= i < |events| ==>
         Enabled(states[i], events[i]) && states[i + 1] == Next(cfg, states[i], events[i])
  }

  /** A lease runs out only after the delivery that holds it is over. */
  ghost predicate LeaseOutlives(s: Store, ev: Event) {
    ev.ExpireLease? && ev.task in s.leases && s.leases[ev.task] < |s.execs| ==>
      s.execs[s.leases[ev.task]].phase.Ended?
  }

  ghost predicate LeasesOutlive(states: seq<Store>, events: seq<Event>) {
    |events| <= |states| && forall i :: 0 <= i < |events| ==> LeaseOutlives(states[i], events[i])
  }
}
