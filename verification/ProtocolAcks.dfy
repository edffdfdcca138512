/** What an acknowledgement means for the task: what holds of every acknowledged
    entry in every run, exactly which step can take back a final status, and what
    holds when deliveries of a task do not overlap. */
module ProtocolAcks {
  import opened WorkflowTypes
  import opened TransitionTable
  import opened Engine
  import opened History
  import opened Reconcile
  import opened Ledger
  import opened Protocol
  import opened ProtocolSafety
  import opened ProtocolAttempts
  import Worker

  // --- Who changes a task's status ---

  predicate Touches(s: Store, ev: Event, t: nat)
    requires Enabled(s, ev)
  {
    (ev.Commit? || ev.HandleFailure?) && TaskOf(s, ev.x) == t
  }

  lemma CommitTouchesItsTask(handlers: Handlers, maxRevisions: nat, db: Durable, t: nat, signal: Signal, u: nat)
    requires t < |db.tasks| && u < |db.tasks| && u != t
    ensures
      var r := Worker.Commit(handlers, maxRevisions, db, t, signal);
      r.Done? ==> u < |r.db.tasks| && r.db.tasks[u] == db.tasks[u]
  {
  }

  lemma RepairTouchesNoTask(cfg: Config, db: Durable, c: Candidate, elapsed: real, u: nat)
    requires ValidConfig(cfg) && u < |db.tasks|
    ensures
      var r := RepairOne(cfg, db, c, elapsed);
      r.Repaired? ==> u < |r.db.tasks| && r.db.tasks[u] == db.tasks[u]
  {
    var r, attempt := RepairShape(cfg, db, c, elapsed);
  }

  lemma {:induction false} FailureTouchesItsTask(cfg: Config, s: Store, x: nat, u: nat)
    requires Enabled(s, HandleFailure(x)) && u < |s.db.tasks| && u != TaskOf(s, x)
    ensures
      var db := FailureStep(cfg, s, x).db;
      u < |db.tasks| && db.tasks[u] == s.db.tasks[u]
  {
    if !Retries(cfg, s, x) {
      var r := FailBuries(cfg.maxRevisions, s.db, TaskOf(s, x),
                          Exhausted(cfg, s, x) && !s.execs[x].phase.fault.NoHandlerFault?);
      assert FailureStep(cfg, s, x) == FailedWith(s, x, r);
    }
  }

  lemma {:induction false} OthersLeaveTheTask(cfg: Config, s: Store, ev: Event, t: nat)
    requires ValidConfig(cfg) && Enabled(s, ev) && t < |s.db.tasks| && !Touches(s, ev, t)
    ensures
      var db := Next(cfg, s, ev).db;
      t < |db.tasks| && db.tasks[t] == s.db.tasks[t]
  {
    if !Writes(ev) {
      QuietStep(cfg, s, ev);
    } else {
      match ev
      case Commit(x, signal) => CommitTouchesItsTask(cfg.handlers, cfg.maxRevisions, s.db, TaskOf(s, x), signal, t);
      case HandleFailure(x) => FailureTouchesItsTask(cfg, s, x, t);
      case RepairCandidate(n, elapsed) => RepairTouchesNoTask(cfg, s.db, s.scanned[n], elapsed, t);
      case HumanAction(_) =>
      case MarkPublished(_) =>
    }
  }

  /** Nothing is committed for a workflow that is over. */
  lemma {:induction false} NoCommitAfterTheEnd(
    handlers: Handlers, maxRevisions: nat, db: Durable, t: nat, signal: Signal)
    requires t < |db.tasks| && Terminal(db.row.state)
    ensures
      var r := Worker.Commit(handlers, maxRevisions, db, t, signal);
      r.Done? ==> r.db.tasks == db.tasks
  {
  }

  /** Exactly one kind of step takes back a status FAILED or DEAD_LETTER: a retryable
      failure, with attempts left, of a delivery that had passed its stale check
      while the workflow was still executing the task. */
  lemma {:induction false} FinalStatusIsTakenBackExactlyBy(cfg: Config, s: Store, ev: Event, t: nat)
    requires ValidConfig(cfg) && Safe(cfg, s) && Enabled(s, ev)
    requires t < |s.db.tasks| && FinallyFailed(s.db.tasks[t].status)
    ensures t < |Next(cfg, s, ev).db.tasks|
    ensures !FinallyFailed(Next(cfg, s, ev).db.tasks[t].status)
       <==> ev.HandleFailure? && TaskOf(s, ev.x) == t && Retries(cfg, s, ev.x)
    ensures ev.HandleFailure? && TaskOf(s, ev.x) == t ==>
      && StateAt(s.db.history, s.execs[ev.x].seen) == ExpectedState(s.db.tasks[t].kind)
      && s.db.row.state != ExpectedState(s.db.tasks[t].kind)
  {
    if !Touches(s, ev, t) {
      OthersLeaveTheTask(cfg, s, ev, t);
    } else if ev.Commit? {
      NoCommitAfterTheEnd(cfg.handlers, cfg.maxRevisions, s.db, t, ev.signal);
    } else {
      LateFailureOfFailed(cfg, s, ev.x);
    }
  }

  lemma {:induction false} LateFailureOfFailed(cfg: Config, s: Store, x: nat)
    requires ValidConfig(cfg) && Safe(cfg, s) && Enabled(s, HandleFailure(x))
    requires FinallyFailed(s.db.tasks[TaskOf(s, x)].status)
    ensures
      var db := FailureStep(cfg, s, x).db;
      if Retries(cfg, s, x) then |db.tasks| == |s.db.tasks| && db.tasks[TaskOf(s, x)].status == Dispatched
      else db == s.db
    ensures StateAt(s.db.history, s.execs[x].seen) == ExpectedState(KindOf(s, x))
    ensures s.db.row.state != ExpectedState(KindOf(s, x))
  {
    assert ExecOk(cfg, s.db, s.queue, s.execs[x]);
    if !Retries(cfg, s, x) {
      FailKeepsSound(cfg, s.db, TaskOf(s, x), Exhausted(cfg, s, x) && !s.execs[x].phase.fault.NoHandlerFault?);
    }
  }

  // --- Every run ---

  function FailedIn(s: Store): set<nat> {
    set t: nat | t < |s.db.tasks| && FinallyFailed(s.db.tasks[t].status)
  }

  /** The tasks that were FAILED or DEAD_LETTER at some moment up to state i. */
  function EverFailed(states: seq<Store>, i: nat): set<nat>
    requires i < |states|
  {
    FailedIn(states[i]) + if i == 0 then {} else EverFailed(states, i - 1)
  }

  /** Why an entry of task t may have been acknowledged: its key is completed, or its
      task was failed together with the workflow, or the worker had looked at the
      workflow outside the task's execution state. */
  ghost predicate Accounted(s: Store, t: nat, seen: nat, failed: set<nat>) {
    && t < |s.db.tasks|
    && (|| KeyOf(s.db.tasks[t]) in s.db.claims
        || StateAt(s.db.history, seen) != ExpectedState(s.db.tasks[t].kind)
        || (Terminal(s.db.row.state) && t in failed))
  }

  ghost predicate AllAccounted(s: Store, failed: set<nat>) {
    && (forall i :: 0 <= i < |s.queue| && s.queue[i].acked.Some? ==>
          Accounted(s, s.queue[i].task, s.queue[i].acked.value, failed))
    && (forall x :: 0 <= x < |s.execs| && InRange(s, x) && s.execs[x].phase.DeadEnd? ==> TaskOf(s, x) in failed)
  }

  /** A delivery at its dead end was there before, or has just failed its task. */
  lemma {:induction false} DeadEndStep(cfg: Config, s: Store, ev: Event, x: nat)
    requires Traffic(cfg, s) && Enabled(s, ev)
    requires x < |Next(cfg, s, ev).execs| && InRange(Next(cfg, s, ev), x) && Next(cfg, s, ev).execs[x].phase.DeadEnd?
    ensures x < |s.execs| && InRange(s, x) && TaskOf(Next(cfg, s, ev), x) == TaskOf(s, x)
    ensures s.execs[x].phase.DeadEnd? || FinallyFailed(Next(cfg, s, ev).db.tasks[TaskOf(s, x)].status)
  {
    OnlyFailureDeadEnds(cfg, s, ev, x);
    QueueKeepsTasks(cfg, s, ev);
    DeliveryKeepsEntry(cfg, s, ev, x);
    assert ExecOk(cfg, s.db, s.queue, s.execs[x]);
    if !s.execs[x].phase.DeadEnd? {
      FailureMarks(cfg, s, x);
    }
  }

  lemma {:induction false} FailureMarks(cfg: Config, s: Store, x: nat)
    requires Enabled(s, HandleFailure(x)) && FailureStep(cfg, s, x).execs[x].phase.DeadEnd?
    ensures
      var db := FailureStep(cfg, s, x).db;
      TaskOf(s, x) < |db.tasks| && FinallyFailed(db.tasks[TaskOf(s, x)].status)
  {
    if !Retries(cfg, s, x) {
      var r := FailBuries(cfg.maxRevisions, s.db, TaskOf(s, x),
                          Exhausted(cfg, s, x) && !s.execs[x].phase.fault.NoHandlerFault?);
      assert FailureStep(cfg, s, x) == FailedWith(s, x, r);
    }
  }

  lemma {:induction false} AckAccounts(cfg: Config, s: Store, x: nat, failed: set<nat>)
    requires Traffic(cfg, s) && AllAccounted(s, failed) && Enabled(s, Ack(x))
    ensures Accounted(s, TaskOf(s, x), s.execs[x].seen, failed) && s.execs[x].seen <= s.db.row.version
  {
    assert ExecOk(cfg, s.db, s.queue, s.execs[x]);
  }

  lemma {:induction false} AccountedStays(cfg: Config, s: Store, ev: Event, t: nat, seen: nat, failed: set<nat>)
    requires ValidConfig(cfg) && Safe(cfg, s) && Enabled(s, ev)
    requires Accounted(s, t, seen, failed) && seen <= s.db.row.version
    ensures Accounted(Next(cfg, s, ev), t, seen, failed)
  {
    FaithfulIsChain(cfg.maxRevisions, s.db.history, s.db.row);
    if !ev.MarkPublished? {
      DatabaseStep(cfg, s, ev);
      assert KeyOf(Next(cfg, s, ev).db.tasks[t]) == KeyOf(s.db.tasks[t]);
    }
  }

  lemma {:induction false} AckedStep(cfg: Config, s: Store, ev: Event, e: nat, failed: set<nat>)
    requires ValidConfig(cfg) && Safe(cfg, s) && AllAccounted(s, failed) && Enabled(s, ev)
    requires e < |Next(cfg, s, ev).queue| && Next(cfg, s, ev).queue[e].acked.Some?
    ensures
      var entry := Next(cfg, s, ev).queue[e];
      Accounted(Next(cfg, s, ev), entry.task, entry.acked.value, failed)
  {
    if e < |s.queue| && s.queue[e].acked.Some? {
      AckedOnce(cfg, s, ev, e);
      assert EntryOk(cfg, s.db, s.queue[e]);
      AccountedStays(cfg, s, ev, s.queue[e].task, s.queue[e].acked.value, failed);
    } else {
      NewAckIsAnAck(cfg, s, ev, e);
      AckAccounts(cfg, s, ev.x, failed);
      AccountedStays(cfg, s, ev, TaskOf(s, ev.x), s.execs[ev.x].seen, failed);
    }
  }

  lemma {:induction false} StepAccounts(cfg: Config, s: Store, ev: Event, failed: set<nat>)
    requires ValidConfig(cfg) && Safe(cfg, s) && AllAccounted(s, failed) && Enabled(s, ev)
    ensures AllAccounted(Next(cfg, s, ev), FailedIn(Next(cfg, s, ev)) + failed)
  {
    var s' := Next(cfg, s, ev);
    forall e | 0 <= e < |s'.queue| && s'.queue[e].acked.Some?
      ensures Accounted(s', s'.queue[e].task, s'.queue[e].acked.value, FailedIn(s') + failed)
    {
      AckedStep(cfg, s, ev, e, failed);
    }
    forall x | 0 <= x < |s'.execs| && InRange(s', x) && s'.execs[x].phase.DeadEnd?
      ensures TaskOf(s', x) in FailedIn(s') + failed
    {
      DeadEndStep(cfg, s, ev, x);
    }
  }

  /** Ack only after durability: in every run, with no premise at all, every
      acknowledged entry is accounted for. */
  lemma {:induction false} AckedIsDurable(cfg: Config, states: seq<Store>, events: seq<Event>, i: nat)
    requires Run(cfg, states, events) && i < |states|
    ensures AllAccounted(states[i], EverFailed(states, i))
  {
    if i > 0 {
      AckedIsDurable(cfg, states, events, i - 1);
      RunsAreSafe(cfg, states, events, i - 1);
      StepAccounts(cfg, states[i - 1], events[i - 1], EverFailed(states, i - 1));
      assert states[i - 1 + 1] == Next(cfg, states[i - 1], events[i - 1]);
    }
  }

  // --- Deliveries that do not overlap ---

  /** Task t failed for good, and no delivery of it can write again. */
  ghost predicate Buried(s: Store, t: nat) {
    t < |s.db.tasks| && FinallyFailed(s.db.tasks[t].status) && Over(s, t)
  }

  lemma SpentStays(cfg: Config, s: Store, ev: Event, y: nat)
    requires Enabled(s, ev) && y < |s.execs| && Terminal(s.db.row.state) && Spent(s.execs[y].phase)
    ensures
      var s' := Next(cfg, s, ev);
      y < |s'.execs| && Spent(s'.execs[y].phase)
  {
    if ev.Commit? || ev.HandleFailure? {
      WritersMoveThemselves(cfg, s, ev, y);
    } else if !ev.HumanAction? && !ev.RepairCandidate? {
      SpentMoves(cfg, s, ev, y);
    }
  }

  lemma WritersMoveThemselves(cfg: Config, s: Store, ev: Event, y: nat)
    requires Enabled(s, ev) && (ev.Commit? || ev.HandleFailure?) && y < |s.execs| && y != ev.x
    ensures y < |Next(cfg, s, ev).execs| && Next(cfg, s, ev).execs[y] == s.execs[y]
  {
  }

  lemma SpentMoves(cfg: Config, s: Store, ev: Event, y: nat)
    requires Enabled(s, ev) && (!Writes(ev) || ev.MarkPublished?)
    requires y < |s.execs| && Terminal(s.db.row.state) && Spent(s.execs[y].phase)
    ensures y < |Next(cfg, s, ev).execs| && Spent(Next(cfg, s, ev).execs[y].phase)
  {
  }

  lemma NewDeliveriesAreSpent(cfg: Config, s: Store, ev: Event, y: nat)
    requires Enabled(s, ev) && |s.execs| <= y < |Next(cfg, s, ev).execs|
    ensures Spent(Next(cfg, s, ev).execs[y].phase)
  {
  }

  lemma QueueKeepsTasks(cfg: Config, s: Store, ev: Event)
    requires Enabled(s, ev)
    ensures
      var queue := Next(cfg, s, ev).queue;
      |s.queue| <= |queue| && forall i :: 0 <= i < |s.queue| ==> queue[i].task == s.queue[i].task
  {
  }

  lemma {:induction false} OverStays(cfg: Config, s: Store, ev: Event, t: nat)
    requires Traffic(cfg, s) && Enabled(s, ev) && Over(s, t) && Terminal(Next(cfg, s, ev).db.row.state)
    ensures Over(Next(cfg, s, ev), t)
  {
    var s' := Next(cfg, s, ev);
    QueueKeepsTasks(cfg, s, ev);
    forall y | 0 <= y < |s'.execs| && InRange(s', y) && TaskOf(s', y) == t ensures Spent(s'.execs[y].phase) {
      if y < |s.execs| {
        assert ExecOk(cfg, s.db, s.queue, s.execs[y]);
        DeliveryKeepsEntry(cfg, s, ev, y);
        SpentStays(cfg, s, ev, y);
      } else {
        NewDeliveriesAreSpent(cfg, s, ev, y);
      }
    }
  }

  lemma DeliveryKeepsEntry(cfg: Config, s: Store, ev: Event, y: nat)
    requires Enabled(s, ev) && y < |s.execs|
    ensures y < |Next(cfg, s, ev).execs| && Next(cfg, s, ev).execs[y].entry == s.execs[y].entry
  {
    if ev.Commit? || ev.HandleFailure? {
      WritersKeepEntries(cfg, s, ev, y);
    }
  }

  lemma WritersKeepEntries(cfg: Config, s: Store, ev: Event, y: nat)
    requires Enabled(s, ev) && (ev.Commit? || ev.HandleFailure?) && y < |s.execs|
    ensures y < |Next(cfg, s, ev).execs| && Next(cfg, s, ev).execs[y].entry == s.execs[y].entry
  {
  }

  lemma {:induction false} StillOver(cfg: Config, s: Store, ev: Event)
    requires ValidConfig(cfg) && Safe(cfg, s) && Enabled(s, ev) && Terminal(s.db.row.state)
    ensures Terminal(Next(cfg, s, ev).db.row.state)
  {
    if !ev.MarkPublished? {
      DatabaseStep(cfg, s, ev);
    }
  }

  lemma {:induction false} BuriedStays(cfg: Config, s: Store, ev: Event, t: nat)
    requires ValidConfig(cfg) && Safe(cfg, s) && Enabled(s, ev) && Buried(s, t)
    ensures Buried(Next(cfg, s, ev), t)
  {
    StillOver(cfg, s, ev);
    OverStays(cfg, s, ev, t);
    OthersLeaveTheTask(cfg, s, ev, t);
  }

  /** Why an acknowledged entry of task t needs no more work. */
  ghost predicate Concluded(s: Store, t: nat, seen: nat) {
    && t < |s.db.tasks|
    && (|| KeyOf(s.db.tasks[t]) in s.db.claims
        || StateAt(s.db.history, seen) != ExpectedState(s.db.tasks[t].kind)
        || Buried(s, t))
  }

  ghost predicate Conclusive(s: Store) {
    && (forall i :: 0 <= i < |s.queue| && s.queue[i].acked.Some? ==>
          Concluded(s, s.queue[i].task, s.queue[i].acked.value))
    && (forall x :: 0 <= x < |s.execs| && InRange(s, x) && s.execs[x].phase.DeadEnd? ==> Buried(s, TaskOf(s, x)))
  }

  lemma {:induction false} ConcludedStays(cfg: Config, s: Store, ev: Event, t: nat, seen: nat)
    requires ValidConfig(cfg) && Safe(cfg, s) && Enabled(s, ev)
    requires Concluded(s, t, seen) && seen <= s.db.row.version
    ensures Concluded(Next(cfg, s, ev), t, seen)
  {
    if Buried(s, t) {
      BuriedStays(cfg, s, ev, t);
    } else {
      AccountedStays(cfg, s, ev, t, seen, {});
    }
  }

  lemma {:induction false} FailedIsBuried(cfg: Config, s: Store, x: nat, r: Outcome)
    requires Traffic(cfg, s) && Alone(s) && Enabled(s, HandleFailure(x)) && Buries(s.db, TaskOf(s, x), r) && r.Done?
    ensures Buried(To(s, x, DeadEnd).(db := r.db), TaskOf(s, x))
  {
    var s' := To(s, x, DeadEnd).(db := r.db);
    forall y | 0 <= y < |s'.execs| && InRange(s', y) && TaskOf(s', y) == TaskOf(s, x) ensures Spent(s'.execs[y].phase) {
      assert ExecOk(cfg, s.db, s.queue, s.execs[y]);
    }
  }

  /** The failing step buries its task when no other delivery of it is under way. */
  lemma {:induction false} FailureBuries(cfg: Config, s: Store, x: nat)
    requires Traffic(cfg, s) && Alone(s) && Enabled(s, HandleFailure(x))
    requires FailureStep(cfg, s, x).execs[x].phase.DeadEnd?
    ensures Buried(FailureStep(cfg, s, x), TaskOf(s, x))
  {
    if !Retries(cfg, s, x) {
      var r := FailBuries(cfg.maxRevisions, s.db, TaskOf(s, x),
                          Exhausted(cfg, s, x) && !s.execs[x].phase.fault.NoHandlerFault?);
      assert FailureStep(cfg, s, x) == FailedWith(s, x, r);
      FailedIsBuried(cfg, s, x, r);
    }
  }

  lemma OnlyFailureDeadEnds(cfg: Config, s: Store, ev: Event, x: nat)
    requires Enabled(s, ev) && x < |Next(cfg, s, ev).execs| && Next(cfg, s, ev).execs[x].phase.DeadEnd?
    ensures x < |s.execs| && (s.execs[x].phase.DeadEnd? || ev == HandleFailure(x))
  {
    if ev.Commit? || ev.HandleFailure? {
      OnlyFailedDeliveriesDeadEnd(cfg, s, ev, x);
    }
  }

  lemma OnlyFailedDeliveriesDeadEnd(cfg: Config, s: Store, ev: Event, x: nat)
    requires Enabled(s, ev) && (ev.Commit? || ev.HandleFailure?)
    requires x < |Next(cfg, s, ev).execs| && Next(cfg, s, ev).execs[x].phase.DeadEnd?
    ensures x < |s.execs| && (s.execs[x].phase.DeadEnd? || ev == HandleFailure(x))
  {
  }

  lemma {:induction false} DeadEndsStayBuried(cfg: Config, s: Store, ev: Event, x: nat)
    requires ValidConfig(cfg) && Safe(cfg, s) && Paced(s) && Conclusive(s) && Enabled(s, ev)
    requires x < |Next(cfg, s, ev).execs| && Next(cfg, s, ev).execs[x].phase.DeadEnd? && InRange(Next(cfg, s, ev), x)
    ensures Buried(Next(cfg, s, ev), TaskOf(Next(cfg, s, ev), x))
  {
    OnlyFailureDeadEnds(cfg, s, ev, x);
    QueueKeepsTasks(cfg, s, ev);
    DeliveryKeepsEntry(cfg, s, ev, x);
    assert ExecOk(cfg, s.db, s.queue, s.execs[x]);
    if s.execs[x].phase.DeadEnd? {
      BuriedStays(cfg, s, ev, TaskOf(s, x));
    } else {
      FailureBuries(cfg, s, x);
    }
  }

  /** A delivery acknowledges only what is concluded. */
  lemma {:induction false} AckConcludes(cfg: Config, s: Store, x: nat)
    requires Safe(cfg, s) && Conclusive(s) && Enabled(s, Ack(x))
    ensures Concluded(s, TaskOf(s, x), s.execs[x].seen) && s.execs[x].seen <= s.db.row.version
  {
    assert ExecOk(cfg, s.db, s.queue, s.execs[x]);
  }

  lemma {:induction false} AcksStayConcluded(cfg: Config, s: Store, ev: Event, i: nat)
    requires ValidConfig(cfg) && Safe(cfg, s) && Conclusive(s) && Enabled(s, ev)
    requires i < |Next(cfg, s, ev).queue| && Next(cfg, s, ev).queue[i].acked.Some?
    ensures
      var entry := Next(cfg, s, ev).queue[i];
      Concluded(Next(cfg, s, ev), entry.task, entry.acked.value)
  {
    if i < |s.queue| && s.queue[i].acked.Some? {
      AckedOnce(cfg, s, ev, i);
      assert EntryOk(cfg, s.db, s.queue[i]);
      ConcludedStays(cfg, s, ev, s.queue[i].task, s.queue[i].acked.value);
    } else {
      NewAckIsAnAck(cfg, s, ev, i);
      AckConcludes(cfg, s, ev.x);
      ConcludedStays(cfg, s, ev, TaskOf(s, ev.x), s.execs[ev.x].seen);
    }
  }

  lemma AckedOnce(cfg: Config, s: Store, ev: Event, i: nat)
    requires Enabled(s, ev) && i < |s.queue| && s.queue[i].acked.Some?
    ensures i < |Next(cfg, s, ev).queue| && Next(cfg, s, ev).queue[i] == s.queue[i]
  {
  }

  lemma NewAckIsAnAck(cfg: Config, s: Store, ev: Event, i: nat)
    requires Enabled(s, ev) && i < |Next(cfg, s, ev).queue| && Next(cfg, s, ev).queue[i].acked.Some?
    requires i < |s.queue| ==> s.queue[i].acked.None?
    ensures ev.Ack? && s.execs[ev.x].entry == i
    ensures Next(cfg, s, ev).queue[i].task == TaskOf(s, ev.x)
    ensures Next(cfg, s, ev).queue[i].acked == Some(s.execs[ev.x].seen)
  {
  }

  lemma {:induction false} StepKeepsConclusive(cfg: Config, s: Store, ev: Event)
    requires ValidConfig(cfg) && Safe(cfg, s) && Paced(s) && Conclusive(s) && Enabled(s, ev)
    ensures Conclusive(Next(cfg, s, ev))
  {
    var s' := Next(cfg, s, ev);
    forall i | 0 <= i < |s'.queue| && s'.queue[i].acked.Some?
      ensures Concluded(s', s'.queue[i].task, s'.queue[i].acked.value)
    {
      AcksStayConcluded(cfg, s, ev, i);
    }
    forall x | 0 <= x < |s'.execs| && InRange(s', x) && s'.execs[x].phase.DeadEnd? ensures Buried(s', TaskOf(s', x)) {
      DeadEndsStayBuried(cfg, s, ev, x);
    }
  }

  lemma {:induction false} RunsAreConclusive(cfg: Config, states: seq<Store>, events: seq<Event>, i: nat)
    requires Run(cfg, states, events) && DeliveriesDoNotOverlap(states, events) && i < |states|
    ensures Conclusive(states[i])
  {
    if i > 0 {
      RunsAreConclusive(cfg, states, events, i - 1);
      RunsAreSafe(cfg, states, events, i - 1);
      RunsArePaced(cfg, states, events, i - 1);
      StepKeepsConclusive(cfg, states[i - 1], events[i - 1]);
      assert states[i - 1 + 1] == Next(cfg, states[i - 1], events[i - 1]);
    }
  }

  /** Ack only after durability, in full: when the deliveries of a task do not
      overlap, the task of an acknowledged entry has failed for good, or its key is
      completed, or the worker had looked at the workflow outside the task's
      execution state. */
  lemma AckedIsConcluded(cfg: Config, states: seq<Store>, events: seq<Event>, i: nat, e: nat)
    requires Run(cfg, states, events) && DeliveriesDoNotOverlap(states, events) && i < |states|
    requires e < |states[i].queue| && states[i].queue[e].acked.Some?
    ensures states[i].queue[e].task < |states[i].db.tasks|
    ensures
      var task := states[i].db.tasks[states[i].queue[e].task];
      || FinallyFailed(task.status)
      || KeyOf(task) in states[i].db.claims
      || StateAt(states[i].db.history, states[i].queue[e].acked.value) != ExpectedState(task.kind)
  {
    RunsAreConclusive(cfg, states, events, i);
  }
}
