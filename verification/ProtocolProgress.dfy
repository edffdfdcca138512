/** Progress of every run: there is always a task that the workflow is waiting for,
    every dispatched key is fresh, and, when a lease outlives the execution it
    guards, deliveries of a task execute one at a time. */
module ProtocolProgress {
  import opened WorkflowTypes
  import opened TransitionTable
  import opened Engine
  import opened Reconcile
  import opened Ledger
  import opened Lineage
  import opened Protocol
  import opened ProtocolSafety
  import Worker

  /** The task that the workflow is waiting for: it executes in the current
      state, its key is unclaimed, it was dispatched, none of its entries is
      acknowledged and no delivery of it is about to acknowledge. */
  ghost predicate Awaited(s: Store, t: nat) {
    && t < |s.db.tasks|
    && ExpectedState(s.db.tasks[t].kind) == s.db.row.state
    && KeyOf(s.db.tasks[t]) !in s.db.claims
    && (exists o :: 0 <= o < |s.db.outbox| && s.db.outbox[o].task == t)
    && (forall i :: 0 <= i < |s.queue| && s.queue[i].task == t ==> s.queue[i].acked.None?)
    && (forall x :: 0 <= x < |s.execs| && InRange(s, x) && TaskOf(s, x) == t ==>
          !Acking(s.execs[x].phase) && !s.execs[x].phase.Committed?)
  }

  ghost predicate WorkIsAwaited(s: Store) {
    Executing(s.db.row.state) ==> exists t: nat :: Awaited(s, t)
  }

  predicate Guarded(p: Phase) {
    p.Leased? || p.Running?
  }

  predicate Repeatable(kind: TaskType) {
    kind.GenerateScenario? || kind.ReviewScenario?
  }

  /** A delivery between lease and commit holds the lease of its task, and while
      its handler runs nobody else completes a GENERATE or REVIEW. */
  ghost predicate Exclusive(s: Store) {
    forall x :: 0 <= x < |s.execs| && InRange(s, x) && Guarded(s.execs[x].phase) ==>
      && TaskOf(s, x) in s.leases && s.leases[TaskOf(s, x)] == x
      && (s.execs[x].phase.Running? && Repeatable(KindOf(s, x)) ==> ExecKey(s, x) !in s.db.claims)
  }

  /** A candidate still current can only ask for another COLLECT. */
  ghost predicate CandidatesTame(s: Store) {
    forall n :: 0 <= n < |s.scanned| ==>
      && s.scanned[n].row.version <= s.db.row.version
      && (s.scanned[n].row.version == s.db.row.version && s.scanned[n].expected.Some? ==>
            s.db.row.state.Collecting? && s.scanned[n].expected.value.Collect?)
  }

  ghost predicate Live(cfg: Config, s: Store) {
    && Safe(cfg, s)
    && Descends(s.db)
    && CandidatesTame(s)
    && WorkIsAwaited(s)
  }

  // --- Lineage of the database ---

  lemma {:induction false} StepDescends(cfg: Config, s: Store, ev: Event)
    requires ValidConfig(cfg) && Live(cfg, s) && Enabled(s, ev)
    ensures Descends(Next(cfg, s, ev).db)
  {
    if !Writes(ev) {
      QuietStep(cfg, s, ev);
    } else {
      match ev
      case MarkPublished(o) => PublishDescends(s.db, o);
      case Commit(x, signal) => CommitDescends(cfg, s.db, TaskOf(s, x), signal);
      case HandleFailure(x) => FailureDescends(cfg, s, x);
      case HumanAction(action) => ApprovalDescends(s.db, action);
      case RepairCandidate(n, elapsed) => RepairDescends(cfg, s.db, s.scanned[n], elapsed);
    }
  }

  lemma PublishDescends(db: Durable, o: nat)
    requires Descends(db) && o < |db.outbox|
    ensures Descends(db.(outbox := db.outbox[o := db.outbox[o].(published := true)]))
  {
    var db' := db.(outbox := db.outbox[o := db.outbox[o].(published := true)]);
    forall i | 0 <= i < |db.tasks| && Flowing(db.row.state) ensures TaskLineage(db', db'.tasks[i]) {
      assert TaskLineage(db, db.tasks[i]);
    }
    forall k | k in db.claims && Flowing(db.row.state) ensures ClaimLineage(db', k) {
      assert ClaimLineage(db, k);
    }
  }

  lemma FailureDescends(cfg: Config, s: Store, x: nat)
    requires ValidConfig(cfg) && Live(cfg, s) && Enabled(s, HandleFailure(x))
    ensures Descends(FailureStep(cfg, s, x).db)
  {
    if Retries(cfg, s, x) {
      RetryDescends(s.db, TaskOf(s, x), s.execs[x].attempt);
    } else {
      FailDescends(cfg, s.db, TaskOf(s, x), Exhausted(cfg, s, x) && !s.execs[x].phase.fault.NoHandlerFault?);
    }
  }

  // --- Candidates ---

  /** What collection can find in a live workflow. */
  lemma JustifiedIsTame(cfg: Config, s: Store, c: Candidate, elapsed: real)
    requires Live(cfg, s) && Justified(c, s.db, elapsed)
    ensures c.row == s.db.row
    ensures c.expected.Some? ==> s.db.row.state.Collecting? && c.expected.value.Collect?
  {
    if s.db.row.state.GeneratingScenario? {
      var latest := LatestOfKind(s.db.tasks, GenerateScenario);
      if latest.Some? {
        GenerationIsInFlight(cfg, s, latest.value);
      }
    }
  }

  lemma GenerationIsInFlight(cfg: Config, s: Store, latest: nat)
    requires Live(cfg, s) && s.db.row.state.GeneratingScenario?
    requires LatestOfKind(s.db.tasks, GenerateScenario) == Some(latest)
    ensures InFlight(s.db.tasks[latest].status)
  {
    var t: nat :| Awaited(s, t);
    UnclaimedIsCurrent(cfg, s.db, t);
    assert TaskLineage(s.db, s.db.tasks[latest]);
    assert t <= latest;
  }

  lemma {:induction false} StepKeepsCandidatesTame(cfg: Config, s: Store, ev: Event)
    requires ValidConfig(cfg) && Live(cfg, s) && Enabled(s, ev)
    ensures CandidatesTame(Next(cfg, s, ev))
  {
    if ev.MarkPublished? {
    } else if ev.CollectCandidate? {
      JustifiedIsTame(cfg, s, ev.candidate, ev.elapsed);
    } else {
      SameVersionSameRowStep(cfg, s, ev);
      ScannedStep(cfg, s, ev);
    }
  }

  lemma ScannedStep(cfg: Config, s: Store, ev: Event)
    requires Enabled(s, ev) && !ev.CollectCandidate?
    ensures Next(cfg, s, ev).scanned == s.scanned
  {
  }

  /** The row changes only together with its version. */
  lemma {:induction false} SameVersionSameRowStep(cfg: Config, s: Store, ev: Event)
    requires ValidConfig(cfg) && Safe(cfg, s) && Enabled(s, ev) && !ev.MarkPublished?
    ensures s.db.row.version <= Next(cfg, s, ev).db.row.version
    ensures Next(cfg, s, ev).db.row.version == s.db.row.version ==> Next(cfg, s, ev).db.row == s.db.row
  {
    DatabaseStep(cfg, s, ev);
    SameVersionSameRow(cfg, s.db, Next(cfg, s, ev).db);
  }

  lemma {:induction false} SameVersionSameRow(cfg: Config, a: Durable, b: Durable)
    requires Sound(cfg, a) && Sound(cfg, b) && Keeps(a, b)
    ensures a.row.version <= b.row.version
    ensures a.row.version == b.row.version ==> a.row == b.row
  {
    if a.row.version == b.row.version {
      assert a.history == b.history;
    }
  }

  // --- Exclusive execution ---

  lemma {:induction false} StepKeepsExclusive(cfg: Config, s: Store, ev: Event)
    requires ValidConfig(cfg) && Live(cfg, s) && Exclusive(s) && Enabled(s, ev) && LeaseOutlives(s, ev)
    ensures Exclusive(Next(cfg, s, ev))
  {
    match ev
    case Commit(x, signal) => CommitKeepsExclusive(cfg, s, x, signal);
    case HandleFailure(x) => FailureKeepsExclusive(cfg, s, x);
    case HumanAction(action) => HumanKeepsExclusive(cfg, s, action);
    case RepairCandidate(n, elapsed) => RepairKeepsExclusive(cfg, s, n, elapsed);
    case Acquire(x) => AcquireKeepsExclusive(cfg, s, x);
    case PreCheck(x) => PreCheckKeepsExclusive(cfg, s, x);
    case Enqueue(_) => OutsideKeepsExclusive(cfg, s, ev);
    case MarkPublished(_) => OutsideKeepsExclusive(cfg, s, ev);
    case Receive(_) => OutsideKeepsExclusive(cfg, s, ev);
    case ExpireLease(_) => OutsideKeepsExclusive(cfg, s, ev);
    case CollectCandidate(_, _) => OutsideKeepsExclusive(cfg, s, ev);
    case _ => LeavingKeepsExclusive(cfg, s, ev);
  }

  /** Steps of a delivery that end outside the guarded phases. */
  lemma LeavingKeepsExclusive(cfg: Config, s: Store, ev: Event)
    requires Traffic(cfg, s) && Exclusive(s) && Increasing(s.db.tasks) && Enabled(s, ev)
    requires ev.Classify? || ev.Defer? || ev.Raise? || ev.Release? || ev.Crash? || ev.Ack?
    ensures Exclusive(Next(cfg, s, ev))
  {
    LeavingMoves(cfg, s, ev);
    ExclusiveFrame(cfg, s, Next(cfg, s, ev), ev.x);
  }

  lemma LeavingMoves(cfg: Config, s: Store, ev: Event)
    requires Enabled(s, ev)
    requires ev.Classify? || ev.Defer? || ev.Raise? || ev.Release? || ev.Crash? || ev.Ack?
    ensures
      var s' := Next(cfg, s, ev);
      && s'.db == s.db && |s'.queue| == |s.queue| && |s'.execs| == |s.execs|
      && (forall i :: 0 <= i < |s.queue| ==> s'.queue[i].task == s.queue[i].task)
      && !Guarded(s'.execs[ev.x].phase)
      && (forall y :: 0 <= y < |s.execs| && y != ev.x ==> s'.execs[y] == s.execs[y])
      && (forall t :: t in s.leases && s.leases[t] != ev.x ==> t in s'.leases && s'.leases[t] == s.leases[t])
  {
  }

  lemma AcquireKeepsExclusive(cfg: Config, s: Store, x: nat)
    requires Traffic(cfg, s) && Exclusive(s) && Increasing(s.db.tasks) && Enabled(s, Acquire(x))
    ensures Exclusive(Next(cfg, s, Acquire(x)))
  {
    if TaskOf(s, x) in s.leases {
      ExclusiveFrame(cfg, s, Next(cfg, s, Acquire(x)), x);
    } else {
      var s' := Next(cfg, s, Acquire(x));
      forall y | 0 <= y < |s'.execs| && InRange(s', y) && Guarded(s'.execs[y].phase)
        ensures TaskOf(s', y) in s'.leases && s'.leases[TaskOf(s', y)] == y
        ensures s'.execs[y].phase.Running? && Repeatable(KindOf(s', y)) ==> ExecKey(s', y) !in s'.db.claims
      {
        assert InRange(s, y);
      }
    }
  }

  lemma PreCheckKeepsExclusive(cfg: Config, s: Store, x: nat)
    requires Traffic(cfg, s) && Exclusive(s) && Increasing(s.db.tasks) && Enabled(s, PreCheck(x))
    ensures Exclusive(Next(cfg, s, PreCheck(x)))
  {
    var s' := Next(cfg, s, PreCheck(x));
    forall y | 0 <= y < |s'.execs| && InRange(s', y) && Guarded(s'.execs[y].phase)
      ensures TaskOf(s', y) in s'.leases && s'.leases[TaskOf(s', y)] == y
      ensures s'.execs[y].phase.Running? && Repeatable(KindOf(s', y)) ==> ExecKey(s', y) !in s'.db.claims
    {
      assert InRange(s, y) && Guarded(s.execs[y].phase);
    }
  }

  lemma OutsideKeepsExclusive(cfg: Config, s: Store, ev: Event)
    requires Traffic(cfg, s) && Exclusive(s) && Increasing(s.db.tasks) && Enabled(s, ev) && LeaseOutlives(s, ev)
    requires ev.Enqueue? || ev.MarkPublished? || ev.Receive? || ev.ExpireLease? || ev.CollectCandidate?
    ensures Exclusive(Next(cfg, s, ev))
  {
    var s' := Next(cfg, s, ev);
    forall y | 0 <= y < |s'.execs| && InRange(s', y) && Guarded(s'.execs[y].phase)
      ensures TaskOf(s', y) in s'.leases && s'.leases[TaskOf(s', y)] == y
      ensures s'.execs[y].phase.Running? && Repeatable(KindOf(s', y)) ==> ExecKey(s', y) !in s'.db.claims
    {
      assert ExecOk(cfg, s.db, s.queue, s.execs[y]);
      assert InRange(s, y);
    }
  }

  /** A change of the database that adds no completion record moves no delivery. */
  lemma WriteKeepsExclusive(cfg: Config, s: Store, db: Durable)
    requires Traffic(cfg, s) && Exclusive(s) && Grows(s.db, db) && db.claims == s.db.claims
    ensures Exclusive(s.(db := db))
  {
    var s' := s.(db := db);
    forall y | 0 <= y < |s'.execs| && InRange(s', y) && Guarded(s'.execs[y].phase)
      ensures TaskOf(s', y) in s'.leases && s'.leases[TaskOf(s', y)] == y
      ensures s'.execs[y].phase.Running? && Repeatable(KindOf(s', y)) ==> ExecKey(s', y) !in s'.db.claims
    {
      assert ExecOk(cfg, s.db, s.queue, s.execs[y]);
      assert InRange(s, y) && KeyOf(db.tasks[TaskOf(s, y)]) == KeyOf(s.db.tasks[TaskOf(s, y)]);
    }
  }

  lemma {:induction false} ApprovalOutcome(cfg: Config, db: Durable, action: ApprovalAction) returns (r: Outcome)
    requires ValidConfig(cfg) && Sound(cfg, db)
    ensures r == ApplyApproval(db, action)
    ensures r.Done? ==> Sound(cfg, r.db) && Grows(db, r.db) && r.db.claims == db.claims
  {
    ApprovalKeepsSound(cfg, db, action);
    r := ApplyApproval(db, action);
  }

  lemma {:induction false} HumanKeepsExclusive(cfg: Config, s: Store, action: ApprovalAction)
    requires ValidConfig(cfg) && Safe(cfg, s) && Exclusive(s)
    ensures Exclusive(Next(cfg, s, HumanAction(action)))
  {
    var r := ApprovalOutcome(cfg, s.db, action);
    assert Next(cfg, s, HumanAction(action)) == if r.Done? then s.(db := r.db) else s;
    if r.Done? {
      WriteKeepsExclusive(cfg, s, r.db);
    }
  }

  lemma {:induction false} RepairKeepsExclusive(cfg: Config, s: Store, n: nat, elapsed: real)
    requires ValidConfig(cfg) && Live(cfg, s) && Exclusive(s) && n < |s.scanned|
    ensures Exclusive(Next(cfg, s, RepairCandidate(n, elapsed)))
  {
    RepairKeepsSound(cfg, s.db, s.scanned[n], elapsed);
    RepairDescends(cfg, s.db, s.scanned[n], elapsed);
    var r := RepairOne(cfg, s.db, s.scanned[n], elapsed);
    if r.Repaired? {
      WriteKeepsExclusive(cfg, s, r.db);
    }
  }

  /** One delivery leaves the guarded phases; at most its own key is claimed by it. */
  lemma ExclusiveFrame(cfg: Config, s: Store, s': Store, x: nat)
    requires Traffic(cfg, s) && Exclusive(s) && Increasing(s.db.tasks) && InRange(s, x)
    requires |s.queue| == |s'.queue| && forall i :: 0 <= i < |s.queue| ==> s'.queue[i].task == s.queue[i].task
    requires |s'.execs| == |s.execs| && !Guarded(s'.execs[x].phase)
    requires forall y :: 0 <= y < |s.execs| && y != x ==> s'.execs[y] == s.execs[y]
    requires |s.db.tasks| <= |s'.db.tasks|
    requires forall t :: 0 <= t < |s.db.tasks| ==> KeyOf(s'.db.tasks[t]) == KeyOf(s.db.tasks[t])
    requires forall t :: t in s.leases && s.leases[t] != x ==> t in s'.leases && s'.leases[t] == s.leases[t]
    requires forall k :: k in s'.db.claims && k !in s.db.claims ==> k == ExecKey(s, x) && Guarded(s.execs[x].phase)
    ensures Exclusive(s')
  {
    forall y | 0 <= y < |s'.execs| && InRange(s', y) && Guarded(s'.execs[y].phase)
      ensures TaskOf(s', y) in s'.leases && s'.leases[TaskOf(s', y)] == y
      ensures s'.execs[y].phase.Running? && Repeatable(KindOf(s', y)) ==> ExecKey(s', y) !in s'.db.claims
    {
      assert y != x && ExecOk(cfg, s.db, s.queue, s.execs[y]) && InRange(s, y);
      assert KeyOf(s'.db.tasks[TaskOf(s, y)]) == KeyOf(s.db.tasks[TaskOf(s, y)]);
      if Repeatable(KindOf(s, y)) && ExecKey(s, y) == ExecKey(s, x) {
        OneTaskPerKey(s.db, TaskOf(s, y), TaskOf(s, x));
      }
    }
  }

  /** All that the protocol needs to know of a handler transaction. */
  ghost predicate CommitsWell(cfg: Config, db: Durable, t: nat, r: Outcome)
    requires t < |db.tasks|
  {
    r.Done? ==>
      && Sound(cfg, r.db) && Grows(db, r.db)
      && (forall k :: k in r.db.claims && k !in db.claims ==> k == KeyOf(db.tasks[t]))
      && Descends(r.db)
      && (KeyOf(db.tasks[t]) in db.claims ==> StopsShort(db, r.db))
      && (KeyOf(db.tasks[t]) !in db.claims && Executing(r.db.row.state) ==>
            && |r.db.tasks| == |db.tasks| + 1
            && Worker.LandingTask(r.db.row.state, r.db.scenario) == Some(r.db.tasks[|db.tasks|])
            && r.db.outbox == db.outbox + [OutboxRow(|db.tasks|, false)])
      && (!Executing(r.db.row.state) ==> |r.db.tasks| == |db.tasks|)
  }

  lemma {:induction false} CommitOutcome(cfg: Config, db: Durable, t: nat, signal: Signal) returns (r: Outcome)
    requires ValidConfig(cfg) && Sound(cfg, db) && Stored(cfg.handlers, db) && Descends(db) && t < |db.tasks|
    ensures r == Worker.Commit(cfg.handlers, cfg.maxRevisions, db, t, signal)
    ensures CommitsWell(cfg, db, t, r)
  {
    r := Worker.Commit(cfg.handlers, cfg.maxRevisions, db, t, signal);
    if r.Done? {
      if KeyOf(db.tasks[t]) in db.claims {
        LoserCommitsWell(cfg, db, t, signal);
      } else {
        WinnerCommitsWell(cfg, db, t, signal);
      }
    }
  }

  lemma {:induction false} LoserCommitsWell(cfg: Config, db: Durable, t: nat, signal: Signal)
    requires ValidConfig(cfg) && Sound(cfg, db) && Stored(cfg.handlers, db) && Descends(db) && t < |db.tasks|
    requires KeyOf(db.tasks[t]) in db.claims
    ensures CommitsWell(cfg, db, t, Worker.Commit(cfg.handlers, cfg.maxRevisions, db, t, signal))
  {
    CommitKeepsSound(cfg, db, t, signal);
    CommitDescends(cfg, db, t, signal);
    LoserStoresNothing(cfg, db, t, signal);
  }

  lemma {:induction false} WinnerCommitsWell(cfg: Config, db: Durable, t: nat, signal: Signal)
    requires ValidConfig(cfg) && Sound(cfg, db) && Stored(cfg.handlers, db) && Descends(db) && t < |db.tasks|
    requires KeyOf(db.tasks[t]) !in db.claims
    ensures CommitsWell(cfg, db, t, Worker.Commit(cfg.handlers, cfg.maxRevisions, db, t, signal))
  {
    CommitKeepsSound(cfg, db, t, signal);
    CommitDescends(cfg, db, t, signal);
    if Worker.Commit(cfg.handlers, cfg.maxRevisions, db, t, signal).Done? {
      LandedDispatches(cfg, db, t, signal);
    }
  }

  lemma LandedDispatches(cfg: Config, db: Durable, t: nat, signal: Signal)
    requires Winning(cfg, db, t, signal)
    ensures
      var landed := Worker.Landed(cfg.handlers, cfg.maxRevisions, db, t, signal);
      && (forall k :: k in landed.claims && k !in db.claims ==> k == KeyOf(db.tasks[t]))
      && (Executing(landed.row.state) ==>
            && |landed.tasks| == |db.tasks| + 1
            && Worker.LandingTask(landed.row.state, landed.scenario) == Some(landed.tasks[|db.tasks|])
            && landed.outbox == db.outbox + [OutboxRow(|db.tasks|, false)])
      && (!Executing(landed.row.state) ==> |landed.tasks| == |db.tasks|)
  {
    UnclaimedIsCurrent(cfg, db, t);
    Worker.LandingJobBelongs(db, t, signal, cfg.maxRevisions);
  }

  lemma {:induction false} CommitKeepsExclusive(cfg: Config, s: Store, x: nat, signal: Signal)
    requires ValidConfig(cfg) && Live(cfg, s) && Exclusive(s) && Enabled(s, Commit(x, signal))
    ensures Exclusive(CommitStep(cfg, s, x, signal))
  {
    var r := CommitOutcome(cfg, s.db, TaskOf(s, x), signal);
    CommittedKeepsExclusive(cfg, s, x, r);
  }

  lemma {:induction false} CommittedKeepsExclusive(cfg: Config, s: Store, x: nat, r: Outcome)
    requires Traffic(cfg, s) && Exclusive(s) && Increasing(s.db.tasks)
    requires InRange(s, x) && s.execs[x].phase.Running? && CommitsWell(cfg, s.db, TaskOf(s, x), r)
    ensures Exclusive(CommittedWith(s, x, r))
  {
    ExclusiveFrame(cfg, s, CommittedWith(s, x, r), x);
  }

  lemma {:induction false} RetryKeepsExclusive(cfg: Config, s: Store, x: nat)
    requires Traffic(cfg, s) && Exclusive(s) && Increasing(s.db.tasks) && Enabled(s, HandleFailure(x))
    ensures Exclusive(Finish(s, x).(db := Worker.RetryTask(s.db, TaskOf(s, x), s.execs[x].attempt)))
  {
    ExclusiveFrame(cfg, s, Finish(s, x).(db := Worker.RetryTask(s.db, TaskOf(s, x), s.execs[x].attempt)), x);
  }

  lemma {:induction false} FailedKeepsExclusive(cfg: Config, s: Store, x: nat, r: Outcome)
    requires Traffic(cfg, s) && Exclusive(s) && Increasing(s.db.tasks) && Enabled(s, HandleFailure(x))
    requires FailsSoundly(cfg, s.db, r)
    ensures Exclusive(FailedWith(s, x, r))
  {
    ExclusiveFrame(cfg, s, FailedWith(s, x, r), x);
  }

  lemma {:induction false} FailureKeepsExclusive(cfg: Config, s: Store, x: nat)
    requires ValidConfig(cfg) && Safe(cfg, s) && Exclusive(s) && Increasing(s.db.tasks) && Enabled(s, HandleFailure(x))
    ensures Exclusive(FailureStep(cfg, s, x))
  {
    if Retries(cfg, s, x) {
      RetryKeepsExclusive(cfg, s, x);
    } else {
      var r := FailureIsSound(cfg, s.db, TaskOf(s, x), Exhausted(cfg, s, x) && !s.execs[x].phase.fault.NoHandlerFault?);
      FailedKeepsExclusive(cfg, s, x, r);
    }
  }

  // --- Work is awaited ---

  /** Enough to keep awaiting the same task. */
  lemma AwaitedFrame(s: Store, s': Store, t: nat)
    requires Awaited(s, t)
    requires s'.db.row.state == s.db.row.state
    requires |s.db.tasks| <= |s'.db.tasks| && KeyOf(s'.db.tasks[t]) == KeyOf(s.db.tasks[t])
    requires forall k :: k in s'.db.claims ==> k in s.db.claims
    requires |s.db.outbox| <= |s'.db.outbox|
    requires forall o :: 0 <= o < |s.db.outbox| ==> s'.db.outbox[o].task == s.db.outbox[o].task
    requires forall i :: 0 <= i < |s'.queue| && s'.queue[i].task == t ==> s'.queue[i].acked.None?
    requires forall x :: 0 <= x < |s'.execs| && InRange(s', x) && TaskOf(s', x) == t ==>
      !Acking(s'.execs[x].phase) && !s'.execs[x].phase.Committed?
    ensures Awaited(s', t)
  {
    var o :| 0 <= o < |s.db.outbox| && s.db.outbox[o].task == t;
    assert s'.db.outbox[o].task == t;
  }

  /** Steps of one delivery that write nothing: the stale check, the pre-check and
      the acknowledgement cannot go wrong for the awaited task. */
  lemma DeliveryKeepsAwaited(cfg: Config, s: Store, ev: Event, a: nat)
    requires Traffic(cfg, s) && Enabled(s, ev) && Awaited(s, a)
    requires ev.Classify? || MovesOnly(ev)
    ensures Awaited(Next(cfg, s, ev), a)
  {
    DeliveryMoves(cfg, s, ev, a);
    PhaseKeepsAwaited(cfg, s, Next(cfg, s, ev), ev.x, a);
  }

  lemma DeliveryMoves(cfg: Config, s: Store, ev: Event, a: nat)
    requires Enabled(s, ev) && Awaited(s, a)
    requires ev.Classify? || MovesOnly(ev)
    ensures
      var s' := Next(cfg, s, ev);
      && s'.db == s.db && s'.queue == s.queue
      && |s'.execs| == |s.execs| && s'.execs[ev.x].entry == s.execs[ev.x].entry
      && (forall y :: 0 <= y < |s.execs| && y != ev.x ==> s'.execs[y] == s.execs[y])
      && (TaskOf(s, ev.x) == a ==> !Acking(s'.execs[ev.x].phase) && !s'.execs[ev.x].phase.Committed?)
  {
  }

  lemma AckKeepsAwaited(cfg: Config, s: Store, x: nat, a: nat)
    requires Traffic(cfg, s) && Enabled(s, Ack(x)) && Awaited(s, a)
    ensures Awaited(AckStep(s, x), a)
  {
    var s' := AckStep(s, x);
    AckMoves(s, x, a);
    forall y | 0 <= y < |s'.execs| && InRange(s', y) && TaskOf(s', y) == a
      ensures !Acking(s'.execs[y].phase) && !s'.execs[y].phase.Committed?
    {
      assert InRange(s, y) && TaskOf(s, y) == a;
    }
    AwaitedFrame(s, s', a);
  }

  lemma AckMoves(s: Store, x: nat, a: nat)
    requires Enabled(s, Ack(x)) && Awaited(s, a)
    ensures
      var s' := AckStep(s, x);
      && TaskOf(s, x) != a
      && s'.db == s.db && |s'.queue| == |s.queue| && |s'.execs| == |s.execs|
      && (forall i :: 0 <= i < |s.queue| ==> s'.queue[i].task == s.queue[i].task)
      && (forall i :: 0 <= i < |s.queue| && s.queue[i].task == a ==> s'.queue[i] == s.queue[i])
      && (forall y :: 0 <= y < |s.execs| ==>
            s'.execs[y].entry == s.execs[y].entry && (y != x ==> s'.execs[y] == s.execs[y]))
  {
  }

  lemma OutsideKeepsAwaited(cfg: Config, s: Store, ev: Event, a: nat)
    requires Traffic(cfg, s) && Enabled(s, ev) && Awaited(s, a)
    requires ev.Enqueue? || ev.MarkPublished? || ev.Receive? || ev.ExpireLease? || ev.CollectCandidate?
    ensures Awaited(Next(cfg, s, ev), a)
  {
    var s' := Next(cfg, s, ev);
    forall y | 0 <= y < |s'.execs| && InRange(s', y) && TaskOf(s', y) == a
      ensures !Acking(s'.execs[y].phase) && !s'.execs[y].phase.Committed?
    {
      if y < |s.execs| {
        assert ExecOk(cfg, s.db, s.queue, s.execs[y]);
        assert InRange(s, y) && TaskOf(s, y) == a;
      }
    }
    AwaitedFrame(s, s', a);
  }

  /** A task dispatched by the very step that enters its state is awaited. */
  lemma NewTaskIsAwaited(cfg: Config, s: Store, s': Store)
    requires Traffic(cfg, s) && Sound(cfg, s'.db) && Descends(s'.db)
    requires s'.queue == s.queue && |s'.execs| == |s.execs|
    requires forall x :: 0 <= x < |s.execs| ==> s'.execs[x].entry == s.execs[x].entry
    requires |s'.db.tasks| == |s.db.tasks| + 1
    requires Worker.LandingTask(s'.db.row.state, s'.db.scenario) == Some(s'.db.tasks[|s.db.tasks|])
    requires s'.db.outbox == s.db.outbox + [OutboxRow(|s.db.tasks|, false)]
    ensures Awaited(s', |s.db.tasks|)
  {
    FreshKeyIsUnclaimed(cfg, s'.db, s'.db.tasks[|s.db.tasks|]);
    assert s'.db.outbox[|s.db.outbox|].task == |s.db.tasks|;
    forall x | 0 <= x < |s'.execs| && InRange(s', x)
      ensures TaskOf(s', x) != |s.db.tasks|
    {
      assert ExecOk(cfg, s.db, s.queue, s.execs[x]);
    }
    forall i | 0 <= i < |s'.queue| ensures s'.queue[i].task != |s.db.tasks| {
      assert EntryOk(cfg, s.db, s.queue[i]);
    }
  }

  lemma {:induction false} CommittedKeepsAwaited(cfg: Config, s: Store, x: nat, r: Outcome)
    requires Traffic(cfg, s) && WorkIsAwaited(s) && InRange(s, x) && CommitsWell(cfg, s.db, TaskOf(s, x), r)
    ensures WorkIsAwaited(CommittedWith(s, x, r))
  {
    var s' := CommittedWith(s, x, r);
    if r.Done? && ExecKey(s, x) !in s.db.claims {
      if Executing(s'.db.row.state) {
        NewTaskIsAwaited(cfg, s, s');
      }
    } else if Executing(s'.db.row.state) {
      var a: nat :| Awaited(s, a);
      PhaseKeepsAwaited(cfg, s, s', x, a);
    }
  }

  lemma {:induction false} CommitKeepsAwaited(cfg: Config, s: Store, x: nat, signal: Signal)
    requires ValidConfig(cfg) && Live(cfg, s) && Enabled(s, Commit(x, signal))
    ensures WorkIsAwaited(CommitStep(cfg, s, x, signal))
  {
    var r := CommitOutcome(cfg, s.db, TaskOf(s, x), signal);
    CommittedKeepsAwaited(cfg, s, x, r);
  }

  /** A step of another task's delivery, or one that goes to no acknowledging phase. */
  lemma PhaseKeepsAwaited(cfg: Config, s: Store, s': Store, x: nat, a: nat)
    requires Traffic(cfg, s) && Awaited(s, a) && InRange(s, x)
    requires s'.queue == s.queue && |s'.execs| == |s.execs|
    requires forall y :: 0 <= y < |s.execs| && y != x ==> s'.execs[y] == s.execs[y]
    requires s'.execs[x].entry == s.execs[x].entry
    requires TaskOf(s, x) == a ==> !Acking(s'.execs[x].phase) && !s'.execs[x].phase.Committed?
    requires s'.db.row.state == s.db.row.state && s'.db.claims == s.db.claims && s'.db.outbox == s.db.outbox
    requires |s.db.tasks| == |s'.db.tasks|
    requires forall t :: 0 <= t < |s.db.tasks| ==> KeyOf(s'.db.tasks[t]) == KeyOf(s.db.tasks[t])
    ensures Awaited(s', a)
  {
    forall y | 0 <= y < |s'.execs| && InRange(s', y) && TaskOf(s', y) == a
      ensures !Acking(s'.execs[y].phase) && !s'.execs[y].phase.Committed?
    {
      assert InRange(s, y) && TaskOf(s, y) == a;
    }
    AwaitedFrame(s, s', a);
  }

  lemma {:induction false} RetryKeepsAwaited(cfg: Config, s: Store, x: nat)
    requires Traffic(cfg, s) && WorkIsAwaited(s) && Enabled(s, HandleFailure(x))
    ensures WorkIsAwaited(Finish(s, x).(db := Worker.RetryTask(s.db, TaskOf(s, x), s.execs[x].attempt)))
  {
    if Executing(s.db.row.state) {
      var a: nat :| Awaited(s, a);
      PhaseKeepsAwaited(cfg, s, Finish(s, x).(db := Worker.RetryTask(s.db, TaskOf(s, x), s.execs[x].attempt)), x, a);
    }
  }

  /** A workflow that failed awaits nothing; one that did not goes on as before. */
  lemma {:induction false} FailedKeepsAwaited(cfg: Config, s: Store, x: nat, r: Outcome)
    requires Traffic(cfg, s) && WorkIsAwaited(s) && Enabled(s, HandleFailure(x)) && FailsSoundly(cfg, s.db, r)
    ensures WorkIsAwaited(FailedWith(s, x, r))
  {
    if !r.Done? && Executing(s.db.row.state) {
      var a: nat :| Awaited(s, a);
      PhaseKeepsAwaited(cfg, s, FailedWith(s, x, r), x, a);
    }
  }

  lemma {:induction false} FailureKeepsAwaited(cfg: Config, s: Store, x: nat)
    requires ValidConfig(cfg) && Safe(cfg, s) && WorkIsAwaited(s) && Enabled(s, HandleFailure(x))
    ensures WorkIsAwaited(FailureStep(cfg, s, x))
  {
    if Retries(cfg, s, x) {
      RetryKeepsAwaited(cfg, s, x);
    } else {
      var r := FailureIsSound(cfg, s.db, TaskOf(s, x), Exhausted(cfg, s, x) && !s.execs[x].phase.fault.NoHandlerFault?);
      FailedKeepsAwaited(cfg, s, x, r);
    }
  }

  /** A human decision ends the workflow or dispatches a new generation. */
  ghost predicate DecidesWell(cfg: Config, db: Durable, r: Outcome) {
    r.Done? ==>
      && Sound(cfg, r.db) && Descends(r.db)
      && (Executing(r.db.row.state) ==>
            && |r.db.tasks| == |db.tasks| + 1
            && Worker.LandingTask(r.db.row.state, r.db.scenario) == Some(r.db.tasks[|db.tasks|])
            && r.db.outbox == db.outbox + [OutboxRow(|db.tasks|, false)])
  }

  lemma {:induction false} DecisionOutcome(cfg: Config, db: Durable, action: ApprovalAction) returns (r: Outcome)
    requires ValidConfig(cfg) && Sound(cfg, db) && Descends(db)
    ensures r == ApplyApproval(db, action)
    ensures DecidesWell(cfg, db, r)
  {
    ApprovalDescends(db, action);
    ApprovalKeepsSound(cfg, db, action);
    r := ApplyApproval(db, action);
  }

  lemma {:induction false} DecidedKeepsAwaited(cfg: Config, s: Store, r: Outcome)
    requires Traffic(cfg, s) && WorkIsAwaited(s) && DecidesWell(cfg, s.db, r)
    ensures WorkIsAwaited(if r.Done? then s.(db := r.db) else s)
  {
    if r.Done? && Executing(r.db.row.state) {
      NewTaskIsAwaited(cfg, s, s.(db := r.db));
    }
  }

  lemma {:induction false} HumanKeepsAwaited(cfg: Config, s: Store, ev: Event)
    requires ValidConfig(cfg) && Live(cfg, s) && ev.HumanAction?
    ensures WorkIsAwaited(Next(cfg, s, ev))
  {
    var r := DecisionOutcome(cfg, s.db, ev.action);
    DecidedKeepsAwaited(cfg, s, r);
  }

  lemma {:induction false} RepairKeepsAwaited(cfg: Config, s: Store, ev: Event)
    requires ValidConfig(cfg) && Live(cfg, s) && ev.RepairCandidate? && ev.n < |s.scanned|
    ensures WorkIsAwaited(Next(cfg, s, ev))
  {
    var s' := Next(cfg, s, ev);
    RepairDescends(cfg, s.db, s.scanned[ev.n], ev.elapsed);
    if Executing(s'.db.row.state) {
      var a: nat :| Awaited(s, a);
      forall y | 0 <= y < |s'.execs| && InRange(s', y) && TaskOf(s', y) == a
        ensures !Acking(s'.execs[y].phase) && !s'.execs[y].phase.Committed?
      {
        assert ExecOk(cfg, s.db, s.queue, s.execs[y]);
        assert InRange(s, y) && TaskOf(s, y) == a;
      }
      AwaitedFrame(s, s', a);
    }
  }

  // --- Every run ---

  lemma {:induction false} StepKeepsLive(cfg: Config, s: Store, ev: Event)
    requires ValidConfig(cfg) && Live(cfg, s) && Enabled(s, ev)
    ensures Live(cfg, Next(cfg, s, ev))
  {
    StepKeepsSafe(cfg, s, ev);
    StepDescends(cfg, s, ev);
    StepKeepsCandidatesTame(cfg, s, ev);
    StepKeepsAwaited(cfg, s, ev);
  }

  lemma {:induction false} StepKeepsAwaited(cfg: Config, s: Store, ev: Event)
    requires ValidConfig(cfg) && Live(cfg, s) && Enabled(s, ev)
    ensures WorkIsAwaited(Next(cfg, s, ev))
  {
    if ev.HandleFailure? {
      FailureKeepsAwaited(cfg, s, ev.x);
    } else if ev.Commit? {
      CommitKeepsAwaited(cfg, s, ev.x, ev.signal);
    } else {
      OtherStepKeepsAwaited(cfg, s, ev);
    }
  }

  lemma {:induction false} OtherStepKeepsAwaited(cfg: Config, s: Store, ev: Event)
    requires ValidConfig(cfg) && Live(cfg, s) && Enabled(s, ev) && !ev.HandleFailure? && !ev.Commit?
    ensures WorkIsAwaited(Next(cfg, s, ev))
  {
    if ev.HumanAction? {
      HumanKeepsAwaited(cfg, s, ev);
    } else if ev.RepairCandidate? {
      RepairKeepsAwaited(cfg, s, ev);
    } else {
      QuietKeepsWorkAwaited(cfg, s, ev);
    }
  }

  lemma {:induction false} QuietKeepsWorkAwaited(cfg: Config, s: Store, ev: Event)
    requires Live(cfg, s) && Enabled(s, ev)
    requires !Writes(ev) || ev.MarkPublished?
    ensures WorkIsAwaited(Next(cfg, s, ev))
  {
    if !Writes(ev) {
      QuietStep(cfg, s, ev);
    }
    if Executing(s.db.row.state) {
      var a: nat :| Awaited(s, a);
      if ev.Ack? {
        AckKeepsAwaited(cfg, s, ev.x, a);
      } else if ev.Classify? || MovesOnly(ev) {
        DeliveryKeepsAwaited(cfg, s, ev, a);
      } else {
        OutsideKeepsAwaited(cfg, s, ev, a);
      }
    }
  }

  lemma InitIsLive(cfg: Config)
    requires ValidConfig(cfg)
    ensures Live(cfg, Init())
  {
    InitIsSafe(cfg);
    InitDatabase();
    CollectingDescends(Init().db);
    FirstTaskIsAwaited(Init());
  }

  lemma InitDatabase()
    ensures Init().db == Durable(Row(Collecting, 2, 0), [Link(Created, Collecting, Initiated)],
                                 [NewTask(Collect, 1, 1)], [OutboxRow(0, false)], map[], 0, {})
  {
  }

  lemma CollectingDescends(db: Durable)
    requires db.row.state.Collecting? && db.tasks == [NewTask(Collect, 1, 1)] && db.claims == map[] && db.scenario == 0
    ensures Descends(db)
  {
  }

  lemma FirstTaskIsAwaited(s: Store)
    requires s.db.row.state.Collecting? && s.db.tasks == [NewTask(Collect, 1, 1)] && s.db.claims == map[]
    requires s.db.outbox == [OutboxRow(0, false)] && s.queue == [] && s.execs == []
    ensures Awaited(s, 0)
  {
    assert s.db.outbox[0].task == 0;
  }

  /** In every state of every run, with no assumption about leases. */
  lemma {:induction false} RunsAreLive(cfg: Config, states: seq<Store>, events: seq<Event>, i: nat)
    requires Run(cfg, states, events) && i < |states|
    ensures Live(cfg, states[i])
  {
    if i == 0 {
      InitIsLive(cfg);
    } else {
      RunsAreLive(cfg, states, events, i - 1);
      StepKeepsLive(cfg, states[i - 1], events[i - 1]);
      assert states[i - 1 + 1] == Next(cfg, states[i - 1], events[i - 1]);
    }
  }

  /** In every run in which leases outlive the executions they guard. */
  lemma {:induction false} RunsAreExclusive(cfg: Config, states: seq<Store>, events: seq<Event>, i: nat)
    requires Run(cfg, states, events) && LeasesOutlive(states, events) && i < |states|
    ensures Exclusive(states[i])
  {
    if i > 0 {
      RunsAreExclusive(cfg, states, events, i - 1);
      RunsAreLive(cfg, states, events, i - 1);
      StepKeepsExclusive(cfg, states[i - 1], events[i - 1]);
      assert states[i - 1 + 1] == Next(cfg, states[i - 1], events[i - 1]);
    }
  }
}
