/** How often a task can fail when its deliveries do not overlap. */
module ProtocolAttempts {
  import opened WorkflowTypes
  import opened TransitionTable
  import opened Engine
  import opened Reconcile
  import opened Ledger
  import opened Protocol
  import opened ProtocolSafety
  import Worker

  /** An entry is handed to a worker only when no other delivery of its task is
      still under way. */
  ghost predicate Solo(s: Store, ev: Event) {
    ev.Receive? && ev.entry < |s.queue| ==>
      forall y :: 0 <= y < |s.execs| && InRange(s, y) && TaskOf(s, y) == s.queue[ev.entry].task ==>
        s.execs[y].phase.Ended?
  }

  ghost predicate DeliveriesDoNotOverlap(states: seq<Store>, events: seq<Event>) {
    |events| <= |states| && forall i :: 0 <= i < |events| ==> Solo(states[i], events[i])
  }

  /** Phases that cannot lead to another failure once the workflow is over. */
  predicate Spent(p: Phase) {
    p.Loaded? || p.Skipping? || p.DeadEnd? || p.Ended?
  }

  ghost predicate Alone(s: Store) {
    forall x, y :: (0 <= x < |s.execs| && 0 <= y < |s.execs| && InRange(s, x) && InRange(s, y)
                    && TaskOf(s, x) == TaskOf(s, y) && !s.execs[x].phase.Ended? && !s.execs[y].phase.Ended?) ==> x == y
  }

  /** No message is ahead of its task, and a delivery under way is level with it. */
  ghost predicate Level(s: Store) {
    && (forall i :: 0 <= i < |s.queue| && s.queue[i].task < |s.db.tasks| ==>
          s.queue[i].attempt <= s.db.tasks[s.queue[i].task].attempt)
    && (forall x :: 0 <= x < |s.execs| && InRange(s, x) && !s.execs[x].phase.Ended? ==>
          s.execs[x].attempt == s.db.tasks[TaskOf(s, x)].attempt)
  }

  ghost predicate Over(s: Store, t: nat) {
    && Terminal(s.db.row.state)
    && forall x :: 0 <= x < |s.execs| && InRange(s, x) && TaskOf(s, x) == t ==> Spent(s.execs[x].phase)
  }

  /** Each handled failure has used up an attempt number, except a last one that
      ended the workflow. */
  ghost predicate Tallied(s: Store, t: nat)
    requires t < |s.db.tasks|
  {
    || s.db.tasks[t].failures < s.db.tasks[t].attempt
    || (s.db.tasks[t].failures == s.db.tasks[t].attempt && Over(s, t))
  }

  ghost predicate Paced(s: Store) {
    && Alone(s)
    && Level(s)
    && forall t :: 0 <= t < |s.db.tasks| ==> Tallied(s, t)
  }

  // --- Transactions that leave attempts and failures alone ---

  ghost predicate Untouched(a: Durable, b: Durable) {
    && |a.tasks| <= |b.tasks|
    && (forall t :: 0 <= t < |a.tasks| ==>
          b.tasks[t].attempt == a.tasks[t].attempt && b.tasks[t].failures == a.tasks[t].failures)
    && (forall t :: |a.tasks| <= t < |b.tasks| ==> b.tasks[t].failures == 0 && b.tasks[t].attempt >= 1)
  }

  lemma SignalLeavesAttempts(maxRevisions: nat, db: Durable, e: WorkflowState, signal: Signal)
    ensures
      var r := ApplySignal(maxRevisions, db, e, signal);
      r.Done? ==> Untouched(db, r.db)
  {
  }

  lemma BridgeLeavesAttempts(maxRevisions: nat, db: Durable, enqueued: bool)
    ensures Untouched(db, Worker.Bridge(maxRevisions, db, enqueued).db)
  {
    SignalLeavesAttempts(maxRevisions, db, db.row.state, StageCompleted);
  }

  lemma UntouchedTransitive(a: Durable, b: Durable, c: Durable)
    requires Untouched(a, b) && Untouched(b, c)
    ensures Untouched(a, c)
  {
  }

  lemma LoserLeavesAttempts(maxRevisions: nat, db: Durable, t: nat, signal: Signal)
    requires t < |db.tasks|
    ensures
      var r := Worker.CommitLoser(maxRevisions, db, t, signal);
      r.Done? ==> Untouched(db, r.db)
  {
    SignalLeavesAttempts(maxRevisions, db, ExpectedState(db.tasks[t].kind), signal);
  }

  lemma WinnerLeavesAttempts(maxRevisions: nat, db: Durable, t: nat, signal: Signal)
    requires t < |db.tasks|
    ensures
      var r := Worker.CommitWinner(maxRevisions, db, t, signal);
      r.Done? ==> Untouched(db, r.db)
  {
    var claimed := db.(claims := db.claims[KeyOf(db.tasks[t]) := Claim(t, |db.history|)]);
    var e := ExpectedState(db.tasks[t].kind);
    SignalLeavesAttempts(maxRevisions, claimed, e, signal);
    var first := ApplySignal(maxRevisions, claimed, e, signal);
    if first.Done? {
      BridgeLeavesAttempts(maxRevisions, first.db, first.enqueued);
      UntouchedTransitive(db, first.db, Worker.Bridge(maxRevisions, first.db, first.enqueued).db);
    }
  }

  lemma {:induction false} CommitLeavesAttempts(
    handlers: Handlers, maxRevisions: nat, db: Durable, t: nat, signal: Signal)
    requires t < |db.tasks|
    ensures
      var r := Worker.Commit(handlers, maxRevisions, db, t, signal);
      r.Done? ==> Untouched(db, r.db)
  {
    var written := Worker.HandlerWrites(handlers, db, t);
    LoserLeavesAttempts(maxRevisions, written, t, signal);
    WinnerLeavesAttempts(maxRevisions, written, t, signal);
  }

  lemma RepairLeavesAttempts(cfg: Config, db: Durable, c: Candidate, elapsed: real)
    ensures
      var r := RepairOne(cfg, db, c, elapsed);
      r.Repaired? ==> Untouched(db, r.db)
  {
    SignalLeavesAttempts(cfg.maxRevisions, db, db.row.state, ReconciliationRepair);
  }

  // --- Steps ---

  /** A step that neither starts a delivery nor handles a failure. */
  lemma FramePaced(cfg: Config, s: Store, s': Store)
    requires Traffic(cfg, s) && Paced(s) && Untouched(s.db, s'.db)
    requires Terminal(s.db.row.state) ==> Terminal(s'.db.row.state)
    requires |s.queue| <= |s'.queue|
    requires forall i :: 0 <= i < |s.queue| ==> s'.queue[i].task == s.queue[i].task
    requires forall i :: 0 <= i < |s'.queue| && s'.queue[i].task < |s'.db.tasks| ==>
      s'.queue[i].attempt <= s'.db.tasks[s'.queue[i].task].attempt
    requires |s.execs| == |s'.execs|
    requires forall y :: 0 <= y < |s.execs| ==>
      && s'.execs[y].entry == s.execs[y].entry && s'.execs[y].attempt == s.execs[y].attempt
      && (s.execs[y].phase.Ended? ==> s'.execs[y].phase.Ended?)
      && (Terminal(s.db.row.state) && Spent(s.execs[y].phase) ==> Spent(s'.execs[y].phase))
    ensures Paced(s')
  {
    forall y | 0 <= y < |s.execs| ensures InRange(s, y) && InRange(s', y) && TaskOf(s', y) == TaskOf(s, y) {
      assert ExecOk(cfg, s.db, s.queue, s.execs[y]);
    }
    forall t | 0 <= t < |s'.db.tasks| ensures Tallied(s', t) {
      if t < |s.db.tasks| {
        assert Tallied(s, t);
      }
    }
  }

  /** A step of one delivery that leaves the database and the messages alone. */
  lemma PhaseKeepsPaced(cfg: Config, s: Store, s': Store, x: nat)
    requires Traffic(cfg, s) && Paced(s) && s'.db == s.db && InRange(s, x)
    requires |s'.queue| == |s.queue|
    requires forall i :: 0 <= i < |s.queue| ==>
      s'.queue[i].task == s.queue[i].task && s'.queue[i].attempt == s.queue[i].attempt
    requires |s.execs| == |s'.execs|
    requires forall y :: 0 <= y < |s.execs| && y != x ==> s'.execs[y] == s.execs[y]
    requires s'.execs[x].entry == s.execs[x].entry && s'.execs[x].attempt == s.execs[x].attempt
    requires !s.execs[x].phase.Ended?
    requires Terminal(s.db.row.state) && Spent(s.execs[x].phase) ==> Spent(s'.execs[x].phase)
    ensures Paced(s')
  {
    FramePaced(cfg, s, s');
  }

  lemma MoveKeepsPaced(cfg: Config, s: Store, ev: Event)
    requires Traffic(cfg, s) && Paced(s) && Enabled(s, ev)
    requires MovesOnly(ev) || ev.Classify?
    ensures Paced(Next(cfg, s, ev))
  {
    PhaseKeepsPaced(cfg, s, Next(cfg, s, ev), ev.x);
  }

  lemma OutsideKeepsPaced(cfg: Config, s: Store, ev: Event)
    requires Traffic(cfg, s) && Paced(s) && Enabled(s, ev)
    requires ev.ExpireLease? || ev.CollectCandidate? || ev.MarkPublished?
    ensures Paced(Next(cfg, s, ev))
  {
    FramePaced(cfg, s, Next(cfg, s, ev));
  }

  lemma AckKeepsPaced(cfg: Config, s: Store, x: nat)
    requires Traffic(cfg, s) && Paced(s) && Enabled(s, Ack(x))
    ensures Paced(AckStep(s, x))
  {
    PhaseKeepsPaced(cfg, s, AckStep(s, x), x);
  }

  lemma EnqueueKeepsPaced(cfg: Config, s: Store, o: nat)
    requires Traffic(cfg, s) && Paced(s) && Enabled(s, Enqueue(o))
    ensures Paced(Next(cfg, s, Enqueue(o)))
  {
    FramePaced(cfg, s, Next(cfg, s, Enqueue(o)));
  }

  lemma ReceiveKeepsPaced(cfg: Config, s: Store, i: nat)
    requires Traffic(cfg, s) && Paced(s) && Enabled(s, Receive(i)) && Solo(s, Receive(i))
    ensures Paced(Next(cfg, s, Receive(i)))
  {
    var s' := Next(cfg, s, Receive(i));
    forall y | 0 <= y < |s.execs| ensures InRange(s, y) && InRange(s', y) && TaskOf(s', y) == TaskOf(s, y) {
      assert ExecOk(cfg, s.db, s.queue, s.execs[y]);
    }
    forall t | 0 <= t < |s'.db.tasks| ensures Tallied(s', t) {
      assert Tallied(s, t);
    }
  }

  lemma RetryKeepsPaced(cfg: Config, s: Store, x: nat)
    requires Traffic(cfg, s) && Paced(s) && Enabled(s, HandleFailure(x))
    ensures Paced(Finish(s, x).(db := Worker.RetryTask(s.db, TaskOf(s, x), s.execs[x].attempt)))
  {
    var s' := Finish(s, x).(db := Worker.RetryTask(s.db, TaskOf(s, x), s.execs[x].attempt));
    forall y | 0 <= y < |s.execs| ensures InRange(s, y) && InRange(s', y) && TaskOf(s', y) == TaskOf(s, y) {
      assert ExecOk(cfg, s.db, s.queue, s.execs[y]);
    }
    forall t | 0 <= t < |s'.db.tasks| ensures Tallied(s', t) {
      assert Tallied(s, t);
    }
  }

  /** What a failing transaction does to the tasks. */
  ghost predicate Buries(db: Durable, t: nat, r: Outcome)
    requires t < |db.tasks|
  {
    r.Done? ==>
      && Terminal(r.db.row.state)
      && |r.db.tasks| == |db.tasks|
      && (forall u :: 0 <= u < |db.tasks| && u != t ==> r.db.tasks[u] == db.tasks[u])
      && r.db.tasks[t].attempt == db.tasks[t].attempt && r.db.tasks[t].failures == db.tasks[t].failures + 1
      && FinallyFailed(r.db.tasks[t].status)
  }

  lemma FailBuries(maxRevisions: nat, db: Durable, t: nat, exhausted: bool) returns (r: Outcome)
    requires t < |db.tasks|
    ensures r == Worker.FailTask(maxRevisions, db, t, exhausted)
    ensures Buries(db, t, r)
  {
    r := Worker.FailTask(maxRevisions, db, t, exhausted);
    if r.Done? {
      FailureApplies(maxRevisions, db, db.tasks[t].kind, exhausted);
    }
  }

  lemma FailKeepsPaced(cfg: Config, s: Store, x: nat, r: Outcome)
    requires Traffic(cfg, s) && Paced(s) && Enabled(s, HandleFailure(x)) && Buries(s.db, TaskOf(s, x), r)
    ensures Paced(FailedWith(s, x, r))
  {
    if r.Done? {
      BurialKeepsPaced(cfg, s, x, r);
    } else {
      FramePaced(cfg, s, FailedWith(s, x, r));
    }
  }

  lemma BurialKeepsPaced(cfg: Config, s: Store, x: nat, r: Outcome)
    requires Traffic(cfg, s) && Paced(s) && Enabled(s, HandleFailure(x)) && Buries(s.db, TaskOf(s, x), r) && r.Done?
    ensures Paced(To(s, x, DeadEnd).(db := r.db))
  {
    var s' := To(s, x, DeadEnd).(db := r.db);
    forall y | 0 <= y < |s.execs| ensures InRange(s, y) && InRange(s', y) && TaskOf(s', y) == TaskOf(s, y) {
      assert ExecOk(cfg, s.db, s.queue, s.execs[y]);
    }
    forall t | 0 <= t < |s'.db.tasks| ensures Tallied(s', t) {
      assert Tallied(s, t);
    }
  }

  lemma {:induction false} FailureKeepsPaced(cfg: Config, s: Store, x: nat)
    requires Traffic(cfg, s) && Paced(s) && Enabled(s, HandleFailure(x))
    ensures Paced(FailureStep(cfg, s, x))
  {
    if Retries(cfg, s, x) {
      RetryKeepsPaced(cfg, s, x);
    } else {
      var r := FailBuries(cfg.maxRevisions, s.db, TaskOf(s, x),
                          Exhausted(cfg, s, x) && !s.execs[x].phase.fault.NoHandlerFault?);
      FailKeepsPaced(cfg, s, x, r);
    }
  }

  /** A transaction that touches no attempt, perhaps with a change of phase. */
  lemma {:induction false} WriteKeepsPaced(cfg: Config, s: Store, ev: Event)
    requires ValidConfig(cfg) && Safe(cfg, s) && Paced(s) && Enabled(s, ev)
    requires ev.Commit? || ev.HumanAction? || ev.RepairCandidate?
    ensures Paced(Next(cfg, s, ev))
  {
    DatabaseStep(cfg, s, ev);
    WriteLeavesAttempts(cfg, s, ev);
    WriteMoves(cfg, s, ev);
    FramePaced(cfg, s, Next(cfg, s, ev));
  }

  lemma WriteMoves(cfg: Config, s: Store, ev: Event)
    requires Enabled(s, ev)
    requires ev.Commit? || ev.HumanAction? || ev.RepairCandidate?
    ensures
      var s' := Next(cfg, s, ev);
      && s'.queue == s.queue && |s'.execs| == |s.execs|
      && forall y :: 0 <= y < |s.execs| ==>
           && s'.execs[y].entry == s.execs[y].entry && s'.execs[y].attempt == s.execs[y].attempt
           && (s.execs[y].phase.Ended? || Spent(s.execs[y].phase) ==> s'.execs[y].phase == s.execs[y].phase)
  {
  }

  lemma {:induction false} WriteLeavesAttempts(cfg: Config, s: Store, ev: Event)
    requires Enabled(s, ev)
    requires ev.Commit? || ev.HumanAction? || ev.RepairCandidate?
    ensures Untouched(s.db, Next(cfg, s, ev).db)
  {
    match ev
    case Commit(x, signal) => CommitLeavesAttempts(cfg.handlers, cfg.maxRevisions, s.db, TaskOf(s, x), signal);
    case HumanAction(_) =>
    case RepairCandidate(n, elapsed) => RepairLeavesAttempts(cfg, s.db, s.scanned[n], elapsed);
  }

  lemma {:induction false} StepKeepsPaced(cfg: Config, s: Store, ev: Event)
    requires ValidConfig(cfg) && Safe(cfg, s) && Paced(s) && Enabled(s, ev) && Solo(s, ev)
    ensures Paced(Next(cfg, s, ev))
  {
    match ev
    case Enqueue(o) => EnqueueKeepsPaced(cfg, s, o);
    case Receive(i) => ReceiveKeepsPaced(cfg, s, i);
    case HandleFailure(x) => FailureKeepsPaced(cfg, s, x);
    case Ack(x) => AckKeepsPaced(cfg, s, x);
    case Commit(_, _) => WriteKeepsPaced(cfg, s, ev);
    case HumanAction(_) => WriteKeepsPaced(cfg, s, ev);
    case RepairCandidate(_, _) => WriteKeepsPaced(cfg, s, ev);
    case ExpireLease(_) => OutsideKeepsPaced(cfg, s, ev);
    case CollectCandidate(_, _) => OutsideKeepsPaced(cfg, s, ev);
    case MarkPublished(_) => OutsideKeepsPaced(cfg, s, ev);
    case _ => MoveKeepsPaced(cfg, s, ev);
  }

  lemma {:induction false} RunsArePaced(cfg: Config, states: seq<Store>, events: seq<Event>, i: nat)
    requires Run(cfg, states, events) && DeliveriesDoNotOverlap(states, events) && i < |states|
    ensures Paced(states[i])
  {
    if i > 0 {
      RunsArePaced(cfg, states, events, i - 1);
      RunsAreSafe(cfg, states, events, i - 1);
      StepKeepsPaced(cfg, states[i - 1], events[i - 1]);
      assert states[i - 1 + 1] == Next(cfg, states[i - 1], events[i - 1]);
    }
  }

  /** When the deliveries of each task do not overlap, a task fails at most as
      often as its retry policy allows, and the failure that uses up the last
      attempt ends the workflow. */
  lemma FailuresStayBounded(cfg: Config, states: seq<Store>, events: seq<Event>, i: nat, t: nat)
    requires Run(cfg, states, events) && DeliveriesDoNotOverlap(states, events)
    requires i < |states| && t < |states[i].db.tasks|
    ensures
      var task := states[i].db.tasks[t];
      && task.failures <= cfg.attempts(task.kind)
      && (task.failures == cfg.attempts(task.kind) ==> Terminal(states[i].db.row.state))
  {
    RunsAreSafe(cfg, states, events, i);
    RunsArePaced(cfg, states, events, i);
    assert Tallied(states[i], t);
  }
}
