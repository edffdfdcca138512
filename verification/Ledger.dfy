/** What every database transaction of the system keeps, with no assumption about
    leases or timing. */
module Ledger {
  import opened WorkflowTypes
  import opened TransitionTable
  import opened Engine
  import opened History
  import opened Reconcile
  import opened Worker

  /** States in which a stage that can happen only once is over. */
  predicate Past(kind: TaskType, s: WorkflowState) {
    match kind
    case Collect => !s.Created? && !s.Collecting?
    case SelectTopic => !s.Created? && !s.Collecting? && !s.Collected? && !s.SelectingTopic?
    case _ => true
  }

  /** A claimed COLLECT or SELECT_TOPIC is a stage left for good. */
  ghost predicate OneWay(db: Durable) {
    forall k :: k in db.claims ==> Past(k.kind, db.row.state)
  }

  predicate FinallyFailed(status: TaskStatus) {
    status.TaskFailed? || status.DeadLetter?
  }

  /** A completed task's key is claimed, and no task has failed for good while the
      workflow lives. */
  ghost predicate Statuses(db: Durable) {
    forall t :: 0 <= t < |db.tasks| ==>
      && (db.tasks[t].status.Completed? ==> KeyOf(db.tasks[t]) in db.claims)
      && (FinallyFailed(db.tasks[t].status) ==> Terminal(db.row.state))
  }

  /** The stored artifacts are exactly those of the claimed keys. */
  ghost predicate Stored(handlers: Handlers, db: Durable) {
    && (forall k :: k in db.claims && handlers(k.kind, k.logical).Some? ==>
          Key(k.kind, handlers(k.kind, k.logical).value) in db.artifacts)
    && (forall a :: a in db.artifacts ==>
          exists k :: k in db.claims && k.kind == a.kind && handlers(k.kind, k.logical) == Some(a.logical))
  }

  /** Each completion record has its own history link, and that link leaves the
      execution state of the completed task. */
  ghost predicate Once(db: Durable) {
    && (forall k :: k in db.claims ==>
          db.claims[k].link < |db.history| && db.history[db.claims[k].link].from == ExpectedState(k.kind))
    && (forall j, k :: j in db.claims && k in db.claims && j != k ==> db.claims[j].link != db.claims[k].link)
  }

  ghost predicate References(db: Durable) {
    && (forall o :: 0 <= o < |db.outbox| ==> db.outbox[o].task < |db.tasks|)
    && (forall k :: k in db.claims ==> db.claims[k].task < |db.tasks| && KeyOf(db.tasks[db.claims[k].task]) == k)
  }

  ghost predicate AttemptsBounded(cfg: Config, db: Durable) {
    forall t :: 0 <= t < |db.tasks| ==> 1 <= db.tasks[t].attempt <= cfg.attempts(db.tasks[t].kind)
  }

  ghost predicate Sound(cfg: Config, db: Durable) {
    && Faithful(cfg.maxRevisions, db)
    && References(db)
    && OneWay(db)
    && Statuses(db)
    && Once(db)
    && AttemptsBounded(cfg, db)
  }

  /** Nothing is ever taken back: history, outbox and claims only grow, tasks keep
      their identity, and a finished workflow gets no more history or claims. */
  ghost predicate Grows(a: Durable, b: Durable) {
    && a.history <= b.history
    && a.row.version <= b.row.version
    && |a.tasks| <= |b.tasks|
    && (forall t :: 0 <= t < |a.tasks| ==> KeyOf(b.tasks[t]) == KeyOf(a.tasks[t]))
    && a.outbox <= b.outbox
    && (forall o :: |a.outbox| <= o < |b.outbox| ==> !b.outbox[o].published)
    && (forall k :: k in a.claims ==> k in b.claims && b.claims[k] == a.claims[k])
    && (Terminal(a.row.state) ==> b.row == a.row && b.history == a.history && b.claims == a.claims)
  }

  lemma StepsLeaveForGood(maxRevisions: nat, row: Row, cause: Cause, kind: TaskType)
    requires StepRow(maxRevisions, row, cause).Some?
    ensures
      var next := StepRow(maxRevisions, row, cause).value.state;
      && (Past(kind, row.state) ==> Past(kind, next))
      && (row.state == ExpectedState(kind) && !cause.Initiated? ==> Past(kind, next))
  {
  }

  /** One transition on the current row, whoever asks for it. */
  lemma {:induction false} MoveKeepsSound(cfg: Config, db: Durable, d: Decision, cause: Cause)
    requires ValidConfig(cfg) && Sound(cfg, db)
    requires d.from == db.row.state
    requires StepRow(cfg.maxRevisions, db.row, cause) == Some(Advance(db.row, d))
    ensures
      var r := Execute(db, db.row, d, cause);
      r.Done? && Sound(cfg, r.db) && Grows(db, r.db)
  {
    ExecuteKeepsFaithful(cfg.maxRevisions, db, d, cause);
    forall k | k in db.claims ensures Past(k.kind, d.to) {
      StepsLeaveForGood(cfg.maxRevisions, db.row, cause, k.kind);
    }
    PauseAndTerminalStatesHold(cfg.maxRevisions, db.row, cause);
  }

  lemma {:induction false} SignalKeepsSound(cfg: Config, db: Durable, expected: WorkflowState, signal: Signal)
    requires ValidConfig(cfg) && Sound(cfg, db)
    ensures
      var r := ApplySignal(cfg.maxRevisions, db, expected, signal);
      r.Done? ==>
        && Sound(cfg, r.db) && Grows(db, r.db)
        && r.db.history == db.history + [Link(expected, r.db.row.state, Signalled(signal))]
        && r.db.claims == db.claims && r.db.scenario == db.scenario
        && StepRow(cfg.maxRevisions, db.row, Signalled(signal)) == Some(r.db.row)
  {
    if ApplySignal(cfg.maxRevisions, db, expected, signal).Done? {
      LookupStartsHere(db.row.state, signal, db.row.revisions, cfg.maxRevisions);
      MoveKeepsSound(cfg, db, DecideSignal(cfg.maxRevisions, db.row, expected, signal).value, Signalled(signal));
    }
  }

  lemma {:induction false} ApprovalKeepsSound(cfg: Config, db: Durable, action: ApprovalAction)
    requires ValidConfig(cfg) && Sound(cfg, db)
    ensures
      var r := ApplyApproval(db, action);
      r.Done? ==> Sound(cfg, r.db) && Grows(db, r.db)
  {
    if ApplyApproval(db, action).Done? {
      MoveKeepsSound(cfg, db, LookupApproval(action), Decided(action));
    }
  }

  lemma DispatchKeepsSound(cfg: Config, db: Durable, task: Task)
    requires Sound(cfg, db)
    requires task.status.Pending? && 1 <= task.attempt <= cfg.attempts(task.kind)
    ensures Sound(cfg, Dispatch(db, task)) && Grows(db, Dispatch(db, task))
  {
  }

  lemma CompleteKeepsSound(cfg: Config, db: Durable, t: nat)
    requires Sound(cfg, db)
    requires t < |db.tasks| && KeyOf(db.tasks[t]) in db.claims
    ensures Sound(cfg, WithStatus(db, t, Completed)) && Grows(db, WithStatus(db, t, Completed))
  {
  }

  lemma RetryKeepsSound(cfg: Config, db: Durable, t: nat, attempt: nat)
    requires Sound(cfg, db)
    requires t < |db.tasks| && attempt < cfg.attempts(db.tasks[t].kind)
    ensures Sound(cfg, RetryTask(db, t, attempt)) && Grows(db, RetryTask(db, t, attempt))
  {
  }

  lemma PublishKeepsSound(cfg: Config, db: Durable, o: nat)
    requires Sound(cfg, db) && o < |db.outbox|
    ensures
      var marked := db.(outbox := db.outbox[o := db.outbox[o].(published := true)]);
      Sound(cfg, marked)
  {
  }

  /** The failure signals are accepted in exactly the task's own state. */
  lemma FailureApplies(maxRevisions: nat, db: Durable, kind: TaskType, exhausted: bool)
    requires db.row.state == ExpectedState(kind)
    ensures
      var signal := if exhausted then RetriesExhausted else UnrecoverableError;
      var r := ApplySignal(maxRevisions, db, ExpectedState(kind), signal);
      && r.Done? && r.db.tasks == db.tasks && r.db.outbox == db.outbox
      && r.db.row.state == if exhausted then FailedPermanently else Failed
  {
  }

  lemma FinalStatusKeepsSound(cfg: Config, db: Durable, t: nat, task: Task)
    requires Sound(cfg, db) && Terminal(db.row.state)
    requires t < |db.tasks| && KeyOf(task) == KeyOf(db.tasks[t]) && task.attempt == db.tasks[t].attempt
    requires FinallyFailed(task.status)
    ensures
      var marked := db.(tasks := db.tasks[t := task]);
      Sound(cfg, marked) && Grows(db, marked)
  {
  }

  lemma {:induction false} FailKeepsSound(cfg: Config, db: Durable, t: nat, exhausted: bool)
    requires ValidConfig(cfg) && Sound(cfg, db) && t < |db.tasks|
    ensures
      var r := FailTask(cfg.maxRevisions, db, t, exhausted);
      && (r.Done? <==> db.row.state == ExpectedState(db.tasks[t].kind))
      && (r.Done? ==>
            && Sound(cfg, r.db) && Grows(db, r.db)
            && r.db.row.state == (if exhausted then FailedPermanently else Failed)
            && r.db.claims == db.claims && r.db.outbox == db.outbox && |r.db.tasks| == |db.tasks|)
  {
    var signal := if exhausted then RetriesExhausted else UnrecoverableError;
    var e := ExpectedState(db.tasks[t].kind);
    if db.row.state == e {
      FailureApplies(cfg.maxRevisions, db, db.tasks[t].kind, exhausted);
      SignalKeepsSound(cfg, db, e, signal);
      var r := ApplySignal(cfg.maxRevisions, db, e, signal);
      var task := db.tasks[t].(status := if exhausted then DeadLetter else TaskFailed,
                               failures := db.tasks[t].failures + 1);
      FinalStatusKeepsSound(cfg, r.db, t, task);
      GrowsTransitive(db, r.db, r.db.(tasks := r.db.tasks[t := task]));
    }
  }

  /** Adding a completion record right after the transition that goes with it. */
  lemma ClaimKeepsSound(cfg: Config, before: Durable, db: Durable, key: Key, t: nat)
    requires Sound(cfg, db) && Grows(before, db) && Once(before)
    requires key !in db.claims && db.claims == before.claims
    requires t < |db.tasks| && KeyOf(db.tasks[t]) == key
    requires Past(key.kind, db.row.state)
    requires |before.history| < |db.history| && db.history[|before.history|].from == ExpectedState(key.kind)
    requires !Terminal(before.row.state)
    ensures
      var claimed := db.(claims := db.claims[key := Claim(t, |before.history|)]);
      Sound(cfg, claimed) && Grows(before, claimed)
  {
  }

  lemma SignalIgnoresClaims(maxRevisions: nat, db: Durable, claims: map<Key, Claim>, e: WorkflowState, signal: Signal)
    ensures
      var r := ApplySignal(maxRevisions, db, e, signal);
      var r' := ApplySignal(maxRevisions, db.(claims := claims), e, signal);
      r.Done? == r'.Done? && (r.Done? ==> r'.db == r.db.(claims := claims) && r'.enqueued == r.enqueued)
  {
  }

  lemma GrowsTransitive(a: Durable, b: Durable, c: Durable)
    requires Grows(a, b) && Grows(b, c)
    ensures Grows(a, c)
  {
    forall t | 0 <= t < |a.tasks| ensures KeyOf(c.tasks[t]) == KeyOf(a.tasks[t]) {
      assert KeyOf(b.tasks[t]) == KeyOf(a.tasks[t]);
    }
  }

  lemma HandlerWritesKeepSound(cfg: Config, db: Durable, t: nat)
    requires Sound(cfg, db) && t < |db.tasks|
    ensures Sound(cfg, HandlerWrites(cfg.handlers, db, t)) && Grows(db, HandlerWrites(cfg.handlers, db, t))
  {
  }

  lemma {:induction false} BridgeKeepsSound(cfg: Config, db: Durable, enqueued: bool)
    requires ValidConfig(cfg) && Sound(cfg, db)
    ensures
      var r := Bridge(cfg.maxRevisions, db, enqueued);
      Sound(cfg, r.db) && Grows(db, r.db) && r.db.claims == db.claims
  {
    SignalKeepsSound(cfg, db, db.row.state, StageCompleted);
  }

  /** A committed handler transaction keeps everything, whether it claimed the key
      or found it claimed, and either way the key is claimed afterwards. */
  lemma {:induction false} CommitKeepsSound(cfg: Config, db: Durable, t: nat, signal: Signal)
    requires ValidConfig(cfg) && Sound(cfg, db) && t < |db.tasks|
    ensures
      var r := Commit(cfg.handlers, cfg.maxRevisions, db, t, signal);
      r.Done? ==> Sound(cfg, r.db) && Grows(db, r.db) && KeyOf(db.tasks[t]) in r.db.claims
  {
    var written := HandlerWrites(cfg.handlers, db, t);
    HandlerWritesKeepSound(cfg, db, t);
    if Commit(cfg.handlers, cfg.maxRevisions, db, t, signal).Done? {
      if KeyOf(db.tasks[t]) in db.claims {
        LoserKeepsSound(cfg, written, t, signal);
      } else {
        WinnerKeepsSound(cfg, written, t, signal);
      }
      GrowsTransitive(db, written, Commit(cfg.handlers, cfg.maxRevisions, db, t, signal).db);
    }
  }

  lemma {:induction false} LoserKeepsSound(cfg: Config, db: Durable, t: nat, signal: Signal)
    requires ValidConfig(cfg) && Sound(cfg, db) && t < |db.tasks|
    requires KeyOf(db.tasks[t]) in db.claims
    ensures
      var r := CommitLoser(cfg.maxRevisions, db, t, signal);
      r.Done? ==> Sound(cfg, r.db) && Grows(db, r.db) && KeyOf(db.tasks[t]) in r.db.claims
  {
    var e := ExpectedState(db.tasks[t].kind);
    SignalKeepsSound(cfg, db, e, signal);
    var r := ApplySignal(cfg.maxRevisions, db, e, signal);
    if r.Done? {
      CompleteKeepsSound(cfg, r.db, t);
      GrowsTransitive(db, r.db, WithStatus(r.db, t, Completed));
    }
  }

  lemma {:induction false} WinnerKeepsSound(cfg: Config, db: Durable, t: nat, signal: Signal)
    requires ValidConfig(cfg) && Sound(cfg, db) && t < |db.tasks|
    requires KeyOf(db.tasks[t]) !in db.claims
    ensures
      var r := CommitWinner(cfg.maxRevisions, db, t, signal);
      r.Done? ==> Sound(cfg, r.db) && Grows(db, r.db) && KeyOf(db.tasks[t]) in r.db.claims
  {
    var key := KeyOf(db.tasks[t]);
    var claims := db.claims[key := Claim(t, |db.history|)];
    var e := ExpectedState(key.kind);
    var plain := ApplySignal(cfg.maxRevisions, db, e, signal);
    SignalIgnoresClaims(cfg.maxRevisions, db, claims, e, signal);
    if plain.Done? {
      SignalKeepsSound(cfg, db, e, signal);
      StepsLeaveForGood(cfg.maxRevisions, db.row, Signalled(signal), key.kind);
      ClaimKeepsSound(cfg, db, plain.db, key, t);
      var first := plain.db.(claims := claims);
      BridgeKeepsSound(cfg, first, plain.enqueued);
      var last := Bridge(cfg.maxRevisions, first, plain.enqueued).db;
      CompleteKeepsSound(cfg, last, t);
      GrowsTransitive(db, first, last);
      GrowsTransitive(db, last, WithStatus(last, t, Completed));
    }
  }

  lemma SignalAppends(maxRevisions: nat, db: Durable, e: WorkflowState, signal: Signal)
    ensures
      var r := ApplySignal(maxRevisions, db, e, signal);
      r.Done? ==> r.db.history == db.history + [Link(e, r.db.row.state, Signalled(signal))] && r.db.claims == db.claims
                  && r.db.artifacts == db.artifacts
  {
    LookupStartsHere(db.row.state, signal, db.row.revisions, maxRevisions);
  }

  lemma BridgeAppends(maxRevisions: nat, db: Durable, enqueued: bool)
    ensures
      var r := Bridge(maxRevisions, db, enqueued);
      && r.db.claims == db.claims && db.history <= r.db.history && r.db.artifacts == db.artifacts
      && forall i :: |db.history| <= i < |r.db.history| ==> !Executing(r.db.history[i].from)
  {
    SignalAppends(maxRevisions, db, db.row.state, StageCompleted);
  }

  /** A completion record is committed together with exactly one history link that
      leaves the execution state of its task; any other link of the same commit
      leaves a state the workflow only passes through. */
  lemma ClaimComesWithItsTransition(handlers: Handlers, maxRevisions: nat, db: Durable, t: nat, signal: Signal)
    requires t < |db.tasks|
    requires KeyOf(db.tasks[t]) !in db.claims
    ensures
      var r := Commit(handlers, maxRevisions, db, t, signal);
      r.Done? ==>
        && r.db.claims == db.claims[KeyOf(db.tasks[t]) := Claim(t, |db.history|)]
        && r.db.artifacts == db.artifacts + ArtifactOf(handlers, db.tasks[t])
        && db.history < r.db.history
        && r.db.history[|db.history|].from == ExpectedState(db.tasks[t].kind)
        && forall i :: |db.history| < i < |r.db.history| ==> !Executing(r.db.history[i].from)
  {
    var written := HandlerWrites(handlers, db, t);
    var claimed := written.(claims := db.claims[KeyOf(db.tasks[t]) := Claim(t, |db.history|)]);
    var e := ExpectedState(db.tasks[t].kind);
    SignalAppends(maxRevisions, claimed, e, signal);
    var first := ApplySignal(maxRevisions, claimed, e, signal);
    if first.Done? {
      BridgeAppends(maxRevisions, first.db, first.enqueued);
    }
  }

  lemma {:induction false} RepairKeepsSound(cfg: Config, db: Durable, c: Candidate, elapsed: real)
    requires ValidConfig(cfg) && Sound(cfg, db)
    ensures
      var r := RepairOne(cfg, db, c, elapsed);
      r.Repaired? ==> Sound(cfg, r.db) && Grows(db, r.db)
  {
    var r, attempt := RepairShape(cfg, db, c, elapsed);
    if r.Repaired? && attempt > 0 {
      RecreateKeepsSound(cfg, db, c.expected.value, attempt);
    } else if r.Repaired? {
      SignalKeepsSound(cfg, db, db.row.state, ReconciliationRepair);
    }
  }

  /** A repair dispatches the expected task within its attempts, or fails the
      workflow. */
  lemma RepairShape(cfg: Config, db: Durable, c: Candidate, elapsed: real) returns (r: Repair, attempt: nat)
    requires ValidConfig(cfg)
    ensures r == RepairOne(cfg, db, c, elapsed)
    ensures r.Repaired? && attempt > 0 ==>
      c.expected.Some? && attempt <= cfg.attempts(c.expected.value)
      && r.db == RecreateExpectedOutbox(db, c.expected.value, attempt)
    ensures r.Repaired? && attempt == 0 ==>
      ApplySignal(cfg.maxRevisions, db, db.row.state, ReconciliationRepair) == Done(r.db, false)
  {
    r := RepairOne(cfg, db, c, elapsed);
    attempt := 0;
    if r.Repaired? && c.pattern.RP001? {
      attempt := 1;
    } else if r.Repaired? && c.expected.Some? {
      var latest := LatestExpected(db, c.expected);
      var attempts := if latest.Some? then db.tasks[latest.value].attempt else 0;
      attempt := if attempts < cfg.attempts(c.expected.value) then attempts + 1 else 0;
    }
  }

  lemma RecreateKeepsSound(cfg: Config, db: Durable, kind: TaskType, attempt: nat)
    requires Sound(cfg, db) && 1 <= attempt <= cfg.attempts(kind)
    ensures
      var next := RecreateExpectedOutbox(db, kind, attempt);
      Sound(cfg, next) && Grows(db, next)
  {
    DispatchKeepsSound(cfg, db, NewTask(kind, ResolveForTask(kind, db.scenario, kind.GenerateScenario?), attempt));
  }

  lemma InitiateIsSound(cfg: Config)
    requires ValidConfig(cfg)
    ensures Sound(cfg, Initiate())
  {
    InitiateIsFaithful(cfg.maxRevisions);
  }

  // --- Artifacts ---

  /** An artifact and the claim of its task are committed together, so a handler
      that stores an artifact is stopped by it whenever its key is claimed. */
  lemma ClaimedIsTaken(handlers: Handlers, db: Durable, t: nat)
    requires Stored(handlers, db) && t < |db.tasks| && KeyOf(db.tasks[t]) in db.claims
    requires handlers(db.tasks[t].kind, db.tasks[t].logical).Some?
    ensures ArtifactTaken(handlers, db, t)
  {
    var a := Key(db.tasks[t].kind, handlers(db.tasks[t].kind, db.tasks[t].logical).value);
    assert a in ArtifactOf(handlers, db.tasks[t]) * db.artifacts;
  }

  /** A scenario version is stored exactly when its key is claimed. */
  lemma ScenarioIsTakenWhenClaimed(cfg: Config, db: Durable, t: nat)
    requires ValidConfig(cfg) && Stored(cfg.handlers, db) && t < |db.tasks| && db.tasks[t].kind.GenerateScenario?
    ensures ArtifactTaken(cfg.handlers, db, t) <==> KeyOf(db.tasks[t]) in db.claims
  {
    var key := KeyOf(db.tasks[t]);
    assert ArtifactOf(cfg.handlers, db.tasks[t]) == {key};
    assert ArtifactTaken(cfg.handlers, db, t) <==> key in db.artifacts by {
      assert key in db.artifacts ==> key in {key} * db.artifacts;
    }
  }

  lemma {:induction false} CommitKeepsStored(cfg: Config, db: Durable, t: nat, signal: Signal)
    requires ValidConfig(cfg) && Stored(cfg.handlers, db) && t < |db.tasks|
    ensures
      var r := Commit(cfg.handlers, cfg.maxRevisions, db, t, signal);
      r.Done? ==> Stored(cfg.handlers, r.db)
  {
    var r := Commit(cfg.handlers, cfg.maxRevisions, db, t, signal);
    if r.Done? {
      if KeyOf(db.tasks[t]) in db.claims {
        LoserStoresNothing(cfg, db, t, signal);
      } else {
        ClaimComesWithItsTransition(cfg.handlers, cfg.maxRevisions, db, t, signal);
        WinnerKeepsStored(cfg.handlers, db, r.db, t);
      }
    }
  }

  lemma WinnerKeepsStored(handlers: Handlers, db: Durable, next: Durable, t: nat)
    requires Stored(handlers, db) && t < |db.tasks|
    requires next.claims == db.claims[KeyOf(db.tasks[t]) := Claim(t, |db.history|)]
    requires next.artifacts == db.artifacts + ArtifactOf(handlers, db.tasks[t])
    ensures Stored(handlers, next)
  {
    forall a | a in next.artifacts
      ensures exists k :: k in next.claims && k.kind == a.kind && handlers(k.kind, k.logical) == Some(a.logical)
    {
      if a in db.artifacts {
        var k :| k in db.claims && k.kind == a.kind && handlers(k.kind, k.logical) == Some(a.logical);
        assert k in next.claims;
      } else {
        assert KeyOf(db.tasks[t]) in next.claims;
      }
    }
  }

  lemma LoserStoresNothing(cfg: Config, db: Durable, t: nat, signal: Signal)
    requires Stored(cfg.handlers, db) && t < |db.tasks| && KeyOf(db.tasks[t]) in db.claims
    ensures
      var r := Commit(cfg.handlers, cfg.maxRevisions, db, t, signal);
      r.Done? ==>
        && cfg.handlers(db.tasks[t].kind, db.tasks[t].logical).None?
        && r.db.artifacts == db.artifacts && r.db.claims == db.claims
  {
    if cfg.handlers(db.tasks[t].kind, db.tasks[t].logical).Some? {
      ClaimedIsTaken(cfg.handlers, db, t);
    } else {
      SignalAppends(cfg.maxRevisions, HandlerWrites(cfg.handlers, db, t), ExpectedState(db.tasks[t].kind), signal);
    }
  }

  /** A claim is rejected only for a handler that stores no artifact: with leases or
      without, a GENERATE never reaches its claim when its key is claimed. */
  lemma GenerateClaimIsNeverRejected(cfg: Config, db: Durable, t: nat, signal: Signal)
    requires ValidConfig(cfg) && Stored(cfg.handlers, db) && t < |db.tasks| && db.tasks[t].kind.GenerateScenario?
    requires KeyOf(db.tasks[t]) in db.claims
    ensures !Commit(cfg.handlers, cfg.maxRevisions, db, t, signal).Done?
  {
    ScenarioIsTakenWhenClaimed(cfg, db, t);
  }

  // --- Losing a claim ---

  /** A delivery that lost the claim on COLLECT or SELECT_TOPIC changes nothing,
      neither in its own transaction nor on the failure path that follows it. */
  lemma CollectAndSelectLosersAreHarmless(cfg: Config, db: Durable, t: nat, signal: Signal, exhausted: bool)
    requires ValidConfig(cfg) && Sound(cfg, db) && t < |db.tasks|
    requires db.tasks[t].kind.Collect? || db.tasks[t].kind.SelectTopic?
    requires KeyOf(db.tasks[t]) in db.claims && Stored(cfg.handlers, db)
    ensures
      var r := Commit(cfg.handlers, cfg.maxRevisions, db, t, signal);
      r.Done? ==> r.db == db
    ensures !FailTask(cfg.maxRevisions, db, t, exhausted).Done?
  {
    LoserStoresNothing(cfg, db, t, signal);
  }
}
