/** What the protocol promises: in every run, and, where it says so, in the runs in
    which no REVIEW loses its claim. */
module ProtocolGuarantees {
  import opened WorkflowTypes
  import opened TransitionTable
  import opened Engine
  import opened Reconcile
  import opened Ledger
  import opened Lineage
  import opened Protocol
  import opened ProtocolSafety
  import opened ProtocolProgress
  import Worker

  // --- No lost work ---

  ghost predicate Unpublished(s: Store, t: nat) {
    exists o :: 0 <= o < |s.db.outbox| && s.db.outbox[o] == OutboxRow(t, false)
  }

  ghost predicate Undelivered(s: Store, t: nat) {
    exists i :: 0 <= i < |s.queue| && s.queue[i].task == t && s.queue[i].acked.None?
  }

  /** Task t can still move the workflow on: it executes in the current state, is
      not final, has an unclaimed key, and a worker will be given it. */
  ghost predicate Outstanding(s: Store, t: nat) {
    && t < |s.db.tasks|
    && ExpectedState(s.db.tasks[t].kind) == s.db.row.state
    && KeyOf(s.db.tasks[t]) !in s.db.claims
    && InFlight(s.db.tasks[t].status)
    && (Unpublished(s, t) || Undelivered(s, t))
  }

  lemma AwaitedIsOutstanding(cfg: Config, s: Store, t: nat)
    requires Safe(cfg, s) && Awaited(s, t)
    ensures Outstanding(s, t)
  {
    var o :| 0 <= o < |s.db.outbox| && s.db.outbox[o].task == t;
    if s.db.outbox[o].published {
      var i :| 0 <= i < |s.queue| && s.queue[i].row == o;
      assert EntryOk(cfg, s.db, s.queue[i]);
      assert Undelivered(s, t);
    } else {
      assert s.db.outbox[o] == OutboxRow(t, false);
    }
  }

  /** In every reachable state in which the workflow is executing a stage, some
      task can still move it on, whatever leases do. */
  lemma NoLostWork(cfg: Config, states: seq<Store>, events: seq<Event>, i: nat)
    requires Run(cfg, states, events) && i < |states|
    requires Executing(states[i].db.row.state)
    ensures exists t: nat :: Outstanding(states[i], t)
  {
    RunsAreLive(cfg, states, events, i);
    var t: nat :| Awaited(states[i], t);
    AwaitedIsOutstanding(cfg, states[i], t);
  }

  /** A late failure that fails the workflow, as `LateFailureFailsExactlyWhen` says it
      does, always does so over the head of another task that could still move it on. */
  lemma {:induction false} LateFailureHitsNewerWork(
    cfg: Config, states: seq<Store>, events: seq<Event>, i: nat, x: nat) returns (newer: nat)
    requires Run(cfg, states, events) && i < |states|
    requires Enabled(states[i], HandleFailure(x)) && ExecKey(states[i], x) in states[i].db.claims
    requires !Retries(cfg, states[i], x) && states[i].db.row.state == ExpectedState(KindOf(states[i], x))
    ensures Outstanding(states[i], newer) && newer != TaskOf(states[i], x)
    ensures
      var state := FailureStep(cfg, states[i], x).db.row.state;
      state.Failed? || state.FailedPermanently?
  {
    RunsAreSafe(cfg, states, events, i);
    LateFailureFailsExactlyWhen(cfg, states[i], x);
    NoLostWork(cfg, states, events, i);
    newer :| Outstanding(states[i], newer);
  }

  // --- Claims ---

  /** A delivery whose handler stores an artifact never loses a claim: when its key
      is claimed the artifact stops it first, and nothing changes. GENERATE is one,
      in every run. */
  lemma {:induction false} StoringHandlersNeverLose(
    cfg: Config, states: seq<Store>, events: seq<Event>, i: nat, x: nat, signal: Signal)
    requires Run(cfg, states, events) && i < |events| && events[i] == Commit(x, signal)
    requires InRange(states[i], x) && ExecKey(states[i], x) in states[i].db.claims
    requires
      || KindOf(states[i], x).GenerateScenario?
      || cfg.handlers(KindOf(states[i], x), ExecKey(states[i], x).logical).Some?
    ensures states[i + 1].db == states[i].db && states[i + 1].execs[x].phase == Caught(FatalFault)
  {
    RunsAreSafe(cfg, states, events, i);
    ClaimedIsTaken(cfg.handlers, states[i].db, TaskOf(states[i], x));
  }

  /** With leases that outlive the executions they guard, a GENERATE or REVIEW
      delivery that reaches its commit has an unclaimed key, no other task has the
      same key, and no other delivery of the task is executing. */
  lemma GenerateAndReviewNeverLose(cfg: Config, states: seq<Store>, events: seq<Event>, i: nat, x: nat)
    requires Run(cfg, states, events) && LeasesOutlive(states, events) && i < |states|
    requires InRange(states[i], x) && states[i].execs[x].phase.Running? && Repeatable(KindOf(states[i], x))
    ensures ExecKey(states[i], x) !in states[i].db.claims
    ensures forall t :: 0 <= t < |states[i].db.tasks| && KeyOf(states[i].db.tasks[t]) == ExecKey(states[i], x) ==>
      t == TaskOf(states[i], x)
    ensures forall y :: (0 <= y < |states[i].execs| && InRange(states[i], y) && Guarded(states[i].execs[y].phase)
                         && TaskOf(states[i], y) == TaskOf(states[i], x)) ==> y == x
  {
    RunsAreLive(cfg, states, events, i);
    RunsAreExclusive(cfg, states, events, i);
  }

  /** A REVIEW commits although its key is claimed. */
  ghost predicate ReviewLoses(cfg: Config, s: Store, ev: Event) {
    && ev.Commit? && InRange(s, ev.x) && KindOf(s, ev.x).ReviewScenario?
    && ExecKey(s, ev.x) in s.db.claims
    && Worker.Commit(cfg.handlers, cfg.maxRevisions, s.db, TaskOf(s, ev.x), ev.signal).Done?
  }

  ghost predicate NoReviewLoses(cfg: Config, states: seq<Store>, events: seq<Event>) {
    |events| <= |states| && forall i :: 0 <= i < |events| ==> !ReviewLoses(cfg, states[i], events[i])
  }

  /** No REVIEW loses its claim while leases outlive the executions they guard. */
  lemma LeasesKeepReviews(cfg: Config, states: seq<Store>, events: seq<Event>)
    requires Run(cfg, states, events) && LeasesOutlive(states, events)
    ensures NoReviewLoses(cfg, states, events)
  {
    forall i | 0 <= i < |events| ensures !ReviewLoses(cfg, states[i], events[i]) {
      if ReviewLoses(cfg, states[i], events[i]) {
        GenerateAndReviewNeverLose(cfg, states, events, i, events[i].x);
      }
    }
  }

  /** Nor, whatever leases do, when the REVIEW handler stores an artifact. */
  lemma ArtifactsKeepReviews(cfg: Config, states: seq<Store>, events: seq<Event>)
    requires Run(cfg, states, events)
    requires forall v: nat :: cfg.handlers(ReviewScenario, v).Some?
    ensures NoReviewLoses(cfg, states, events)
  {
    forall i | 0 <= i < |events| ensures !ReviewLoses(cfg, states[i], events[i]) {
      if ReviewLoses(cfg, states[i], events[i]) {
        RunsAreSafe(cfg, states, events, i);
        ClaimedIsTaken(cfg.handlers, states[i].db, TaskOf(states[i], events[i].x));
      }
    }
  }

  // --- At rest ---

  lemma {:induction false} CommitRests(cfg: Config, s: Store, ev: Event)
    requires ValidConfig(cfg) && Live(cfg, s) && Enabled(s, ev) && ev.Commit? && !ReviewLoses(cfg, s, ev)
    requires AtRest(s.db.row.state)
    ensures AtRest(Next(cfg, s, ev).db.row.state)
  {
    var t := TaskOf(s, ev.x);
    CommitDescends(cfg, s.db, t, ev.signal);
    if KeyOf(s.db.tasks[t]) !in s.db.claims {
      Worker.LandsAtRest(cfg.handlers, cfg.maxRevisions, s.db, t, ev.signal);
    }
  }

  lemma {:induction false} StepRests(cfg: Config, s: Store, ev: Event)
    requires ValidConfig(cfg) && Live(cfg, s) && Enabled(s, ev) && !ReviewLoses(cfg, s, ev)
    requires AtRest(s.db.row.state)
    ensures AtRest(Next(cfg, s, ev).db.row.state)
  {
    if ev.Commit? {
      CommitRests(cfg, s, ev);
    } else if ev.HandleFailure? {
      FailureRests(cfg, s, ev.x);
    } else if !Writes(ev) {
      QuietStep(cfg, s, ev);
    } else {
      OutsideWriteRests(cfg, s, ev);
    }
  }

  lemma {:induction false} FailureRests(cfg: Config, s: Store, x: nat)
    requires ValidConfig(cfg) && Safe(cfg, s) && Enabled(s, HandleFailure(x)) && AtRest(s.db.row.state)
    ensures AtRest(FailureStep(cfg, s, x).db.row.state)
  {
    if !Retries(cfg, s, x) {
      var r := FailureIsSound(cfg, s.db, TaskOf(s, x), Exhausted(cfg, s, x) && !s.execs[x].phase.fault.NoHandlerFault?);
      assert FailureStep(cfg, s, x) == FailedWith(s, x, r);
    }
  }

  lemma {:induction false} OutsideWriteRests(cfg: Config, s: Store, ev: Event)
    requires ValidConfig(cfg) && Live(cfg, s) && Enabled(s, ev) && AtRest(s.db.row.state)
    requires ev.HumanAction? || ev.RepairCandidate? || ev.MarkPublished?
    ensures AtRest(Next(cfg, s, ev).db.row.state)
  {
    if ev.HumanAction? {
      ApprovalDescends(s.db, ev.action);
    } else if ev.RepairCandidate? {
      RepairDescends(cfg, s.db, s.scanned[ev.n], ev.elapsed);
    }
  }

  /** Unless a REVIEW loses its claim, the workflow is never at rest in a state it
      should only pass through. */
  lemma {:induction false} AlwaysAtRest(cfg: Config, states: seq<Store>, events: seq<Event>, i: nat)
    requires Run(cfg, states, events) && NoReviewLoses(cfg, states, events) && i < |states|
    ensures AtRest(states[i].db.row.state)
  {
    if i > 0 {
      AlwaysAtRest(cfg, states, events, i - 1);
      RunsAreLive(cfg, states, events, i - 1);
      StepRests(cfg, states[i - 1], events[i - 1]);
      assert states[i - 1 + 1] == Next(cfg, states[i - 1], events[i - 1]);
    }
  }

  // --- Fresh keys ---

  /** What holds of a task at the moment it is dispatched. */
  ghost predicate FreshDispatch(db: Durable, t: nat)
    requires t < |db.tasks|
  {
    && KeyOf(db.tasks[t]) !in db.claims
    && ExpectedState(db.tasks[t].kind) == db.row.state
    && (Repeatable(db.tasks[t].kind) ==>
          forall j :: 0 <= j < t && db.tasks[j].kind == db.tasks[t].kind ==> db.tasks[j].logical < db.tasks[t].logical)
    && (db.tasks[t].kind.ReviewScenario? ==>
          && (exists g :: 0 <= g < t && KeyOf(db.tasks[g]) == Key(GenerateScenario, db.tasks[t].logical))
          && (forall g :: 0 <= g < t && db.tasks[g].kind.GenerateScenario? ==>
                db.tasks[g].logical <= db.tasks[t].logical))
  }

  lemma LandedTaskIsFresh(cfg: Config, db: Durable, t: nat, signal: Signal)
    requires Winning(cfg, db, t, signal)
    requires
      var landed := Worker.Landed(cfg.handlers, cfg.maxRevisions, db, t, signal);
      Sound(cfg, landed) && Descends(landed) && |landed.tasks| == |db.tasks| + 1
    ensures FreshDispatch(Worker.Landed(cfg.handlers, cfg.maxRevisions, db, t, signal), |db.tasks|)
  {
    var landed := Worker.Landed(cfg.handlers, cfg.maxRevisions, db, t, signal);
    UnclaimedIsCurrent(cfg, db, t);
    Worker.LandingJobBelongs(db, t, signal, cfg.maxRevisions);
    FreshKeyIsUnclaimed(cfg, landed, landed.tasks[|db.tasks|]);
    if landed.row.state.Reviewing? {
      assert KeyOf(landed.tasks[t]) == Key(GenerateScenario, landed.scenario);
      forall g | 0 <= g < |landed.tasks| && landed.tasks[g].kind.GenerateScenario?
        ensures landed.tasks[g].logical <= landed.scenario
      {
        assert TaskLineage(landed, landed.tasks[g]);
      }
    }
  }

  lemma {:induction false} CommittedTaskIsFresh(cfg: Config, db: Durable, done: nat, signal: Signal, t: nat)
    requires ValidConfig(cfg) && Sound(cfg, db) && Stored(cfg.handlers, db) && Descends(db) && done < |db.tasks|
    requires
      var r := Worker.Commit(cfg.handlers, cfg.maxRevisions, db, done, signal);
      r.Done? && |db.tasks| <= t < |r.db.tasks|
    ensures FreshDispatch(Worker.Commit(cfg.handlers, cfg.maxRevisions, db, done, signal).db, t)
  {
    var r := CommitOutcome(cfg, db, done, signal);
    CommitDescends(cfg, db, done, signal);
    LandedTaskIsFresh(cfg, db, done, signal);
  }

  lemma {:induction false} CommitDispatchesFresh(cfg: Config, s: Store, x: nat, signal: Signal, t: nat)
    requires ValidConfig(cfg) && Live(cfg, s) && Enabled(s, Commit(x, signal))
    requires |s.db.tasks| <= t < |CommitStep(cfg, s, x, signal).db.tasks|
    ensures FreshDispatch(CommitStep(cfg, s, x, signal).db, t)
  {
    CommittedTaskIsFresh(cfg, s.db, TaskOf(s, x), signal, t);
  }

  lemma {:induction false} HumanDispatchesFresh(cfg: Config, s: Store, action: ApprovalAction, t: nat)
    requires ValidConfig(cfg) && Live(cfg, s)
    requires |s.db.tasks| <= t < |Next(cfg, s, HumanAction(action)).db.tasks|
    ensures FreshDispatch(Next(cfg, s, HumanAction(action)).db, t)
  {
    DecidedTaskIsFresh(cfg, s.db, action, t);
  }

  lemma {:induction false} DecidedTaskIsFresh(cfg: Config, db: Durable, action: ApprovalAction, t: nat)
    requires ValidConfig(cfg) && Sound(cfg, db) && Descends(db)
    requires
      var r := ApplyApproval(db, action);
      r.Done? && |db.tasks| <= t < |r.db.tasks|
    ensures FreshDispatch(ApplyApproval(db, action).db, t)
  {
    ApprovalDescends(db, action);
    ApprovalKeepsSound(cfg, db, action);
    FreshKeyIsUnclaimed(cfg, Regenerated(db), Regenerated(db).tasks[t]);
  }

  /** A repair of a live workflow dispatches nothing but another COLLECT. */
  lemma RepairOnlyCollects(cfg: Config, db: Durable, c: Candidate, elapsed: real)
    requires c.row.version == db.row.version && c.expected.Some? ==>
      db.row.state.Collecting? && c.expected.value.Collect?
    ensures
      var r := RepairOne(cfg, db, c, elapsed);
      r.Repaired? ==>
        forall t :: |db.tasks| <= t < |r.db.tasks| ==> r.db.tasks[t].kind.Collect? && r.db.row.state.Collecting?
  {
    if Transient(db.row.state) {
      RepairSignalApplies(cfg.maxRevisions, db);
    }
  }

  lemma {:induction false} RepairDispatchesFresh(cfg: Config, s: Store, n: nat, elapsed: real, t: nat)
    requires ValidConfig(cfg) && Live(cfg, s) && n < |s.scanned|
    requires |s.db.tasks| <= t < |Next(cfg, s, RepairCandidate(n, elapsed)).db.tasks|
    ensures FreshDispatch(Next(cfg, s, RepairCandidate(n, elapsed)).db, t)
  {
    RepairOnlyCollects(cfg, s.db, s.scanned[n], elapsed);
    RepairKeepsSound(cfg, s.db, s.scanned[n], elapsed);
    CollectIsUnclaimed(cfg, Next(cfg, s, RepairCandidate(n, elapsed)).db, t);
  }

  lemma CollectIsUnclaimed(cfg: Config, db: Durable, t: nat)
    requires Sound(cfg, db) && db.row.state.Collecting? && t < |db.tasks| && db.tasks[t].kind.Collect?
    ensures FreshDispatch(db, t)
  {
  }

  lemma {:induction false} FailureDispatchesNothing(cfg: Config, s: Store, x: nat)
    requires ValidConfig(cfg) && Safe(cfg, s) && Enabled(s, HandleFailure(x))
    ensures |FailureStep(cfg, s, x).db.tasks| == |s.db.tasks|
  {
    if !Retries(cfg, s, x) {
      FailKeepsSound(cfg, s.db, TaskOf(s, x), Exhausted(cfg, s, x) && !s.execs[x].phase.fault.NoHandlerFault?);
    }
  }

  lemma {:induction false} StepDispatchesFresh(cfg: Config, s: Store, ev: Event, t: nat)
    requires ValidConfig(cfg) && Live(cfg, s) && Enabled(s, ev)
    requires |s.db.tasks| <= t < |Next(cfg, s, ev).db.tasks|
    ensures FreshDispatch(Next(cfg, s, ev).db, t)
  {
    if ev.HandleFailure? {
      FailureDispatchesNothing(cfg, s, ev.x);
    } else if !Writes(ev) {
      QuietStep(cfg, s, ev);
    } else if ev.Commit? {
      CommitDispatchesFresh(cfg, s, ev.x, ev.signal, t);
    } else if ev.HumanAction? {
      HumanDispatchesFresh(cfg, s, ev.action, t);
    } else if ev.RepairCandidate? {
      RepairDispatchesFresh(cfg, s, ev.n, ev.elapsed, t);
    }
  }

  /** Across any number of critic revisions, human regenerations and repairs,
      every newly dispatched task executes in the state just entered, has a key
      that nobody has claimed, and a logical version above every earlier one of its
      kind; a REVIEW carries the version of the newest GENERATE. */
  lemma DispatchedKeysAreFresh(cfg: Config, states: seq<Store>, events: seq<Event>, i: nat, t: nat)
    requires Run(cfg, states, events) && i < |events|
    requires |states[i].db.tasks| <= t < |states[i + 1].db.tasks|
    ensures FreshDispatch(states[i + 1].db, t)
  {
    RunsAreLive(cfg, states, events, i);
    StepDispatchesFresh(cfg, states[i], events[i], t);
  }

  // --- Completions and transitions ---

  /** A transition that leaves an execution state without failing the workflow. */
  predicate Success(l: Link) {
    Executing(l.from) && !l.to.Failed? && !l.to.FailedPermanently?
  }

  ghost predicate CompletedAt(db: Durable, i: nat) {
    exists k :: k in db.claims && db.claims[k].link == i
  }

  ghost predicate Attributed(db: Durable) {
    forall i: nat :: i < |db.history| && Success(db.history[i]) ==> CompletedAt(db, i)
  }

  /** New links that are no successes need no completion record. */
  lemma AttributedFrame(a: Durable, b: Durable)
    requires Attributed(a) && Grows(a, b)
    requires forall i: nat :: |a.history| <= i < |b.history| && Success(b.history[i]) ==> CompletedAt(b, i)
    ensures Attributed(b)
  {
    forall i: nat | i < |b.history| && Success(b.history[i]) ensures CompletedAt(b, i) {
      if i < |a.history| {
        assert a.history[i] == b.history[i];
        var k :| k in a.claims && a.claims[k].link == i;
        assert b.claims[k].link == i;
      }
    }
  }

  lemma {:induction false} CommitIsAttributed(cfg: Config, s: Store, x: nat, signal: Signal)
    requires ValidConfig(cfg) && Live(cfg, s) && Enabled(s, Commit(x, signal)) && Attributed(s.db)
    requires !ReviewLoses(cfg, s, Commit(x, signal))
    ensures Attributed(CommitStep(cfg, s, x, signal).db)
  {
    var t := TaskOf(s, x);
    var r := CommitOutcome(cfg, s.db, t, signal);
    assert CommitStep(cfg, s, x, signal) == CommittedWith(s, x, r);
    if r.Done? {
      if KeyOf(s.db.tasks[t]) in s.db.claims {
        LoserStopsShort(cfg, s.db, t, signal);
      } else {
        ClaimComesWithItsTransition(cfg.handlers, cfg.maxRevisions, s.db, t, signal);
        assert r.db.claims[KeyOf(s.db.tasks[t])].link == |s.db.history|;
        AttributedFrame(s.db, r.db);
      }
    }
  }

  lemma FailTaskAppends(maxRevisions: nat, db: Durable, t: nat, exhausted: bool)
    requires t < |db.tasks|
    ensures
      var r := Worker.FailTask(maxRevisions, db, t, exhausted);
      r.Done? ==>
        && |r.db.history| == |db.history| + 1
        && (r.db.history[|db.history|].to.Failed? || r.db.history[|db.history|].to.FailedPermanently?)
  {
    if db.row.state == ExpectedState(db.tasks[t].kind) {
      FailureApplies(maxRevisions, db, db.tasks[t].kind, exhausted);
      SignalAppends(maxRevisions, db, db.row.state, if exhausted then RetriesExhausted else UnrecoverableError);
    }
  }

  lemma {:induction false} FailTaskIsAttributed(cfg: Config, db: Durable, t: nat, exhausted: bool) returns (r: Outcome)
    requires ValidConfig(cfg) && Sound(cfg, db) && t < |db.tasks| && Attributed(db)
    ensures r == Worker.FailTask(cfg.maxRevisions, db, t, exhausted)
    ensures r.Done? ==> Attributed(r.db)
  {
    r := FailureIsSound(cfg, db, t, exhausted);
    FailTaskAppends(cfg.maxRevisions, db, t, exhausted);
    if r.Done? {
      AttributedFrame(db, r.db);
    }
  }

  lemma {:induction false} FailureIsAttributed(cfg: Config, s: Store, x: nat)
    requires ValidConfig(cfg) && Safe(cfg, s) && Enabled(s, HandleFailure(x)) && Attributed(s.db)
    ensures Attributed(FailureStep(cfg, s, x).db)
  {
    if Retries(cfg, s, x) {
      RetryKeepsSound(cfg, s.db, TaskOf(s, x), s.execs[x].attempt);
      AttributedFrame(s.db, FailureStep(cfg, s, x).db);
    } else {
      var exhausted := Exhausted(cfg, s, x) && !s.execs[x].phase.fault.NoHandlerFault?;
      var r := FailTaskIsAttributed(cfg, s.db, TaskOf(s, x), exhausted);
      assert FailureStep(cfg, s, x) == FailedWith(s, x, r);
    }
  }

  lemma RepairAppends(cfg: Config, db: Durable, c: Candidate, elapsed: real)
    ensures
      var r := RepairOne(cfg, db, c, elapsed);
      r.Repaired? && r.db.history != db.history ==>
        && |r.db.history| == |db.history| + 1
        && r.db.history[|db.history|].to.Failed?
  {
    SignalAppends(cfg.maxRevisions, db, db.row.state, ReconciliationRepair);
    if Transient(db.row.state) {
      RepairSignalApplies(cfg.maxRevisions, db);
    }
  }

  lemma {:induction false} RepairIsAttributed(cfg: Config, s: Store, ev: Event)
    requires ValidConfig(cfg) && Safe(cfg, s) && ev.RepairCandidate? && ev.n < |s.scanned| && Attributed(s.db)
    ensures Attributed(Next(cfg, s, ev).db)
  {
    RepairKeepsSound(cfg, s.db, s.scanned[ev.n], ev.elapsed);
    RepairAppends(cfg, s.db, s.scanned[ev.n], ev.elapsed);
    AttributedFrame(s.db, Next(cfg, s, ev).db);
  }

  lemma {:induction false} HumanIsAttributed(cfg: Config, s: Store, ev: Event)
    requires ValidConfig(cfg) && Safe(cfg, s) && ev.HumanAction? && Attributed(s.db)
    ensures Attributed(Next(cfg, s, ev).db)
  {
    ApprovalKeepsSound(cfg, s.db, ev.action);
    if ApplyApproval(s.db, ev.action).Done? {
      AttributedFrame(s.db, Next(cfg, s, ev).db);
    }
  }

  lemma {:induction false} StepIsAttributed(cfg: Config, s: Store, ev: Event)
    requires ValidConfig(cfg) && Live(cfg, s) && Enabled(s, ev) && Attributed(s.db) && !ReviewLoses(cfg, s, ev)
    ensures Attributed(Next(cfg, s, ev).db)
  {
    if ev.Commit? {
      CommitIsAttributed(cfg, s, ev.x, ev.signal);
    } else if ev.HandleFailure? {
      FailureIsAttributed(cfg, s, ev.x);
    } else {
      OtherStepIsAttributed(cfg, s, ev);
    }
  }

  lemma {:induction false} OtherStepIsAttributed(cfg: Config, s: Store, ev: Event)
    requires ValidConfig(cfg) && Safe(cfg, s) && Enabled(s, ev) && Attributed(s.db) && !ev.Commit? && !ev.HandleFailure?
    ensures Attributed(Next(cfg, s, ev).db)
  {
    match ev
    case HumanAction(_) => HumanIsAttributed(cfg, s, ev);
    case RepairCandidate(_, _) => RepairIsAttributed(cfg, s, ev);
    case MarkPublished(_) => PublishIsAttributed(cfg, s, ev);
    case _ => QuietStep(cfg, s, ev);
  }

  lemma PublishIsAttributed(cfg: Config, s: Store, ev: Event)
    requires Enabled(s, ev) && ev.MarkPublished? && Attributed(s.db)
    ensures Attributed(Next(cfg, s, ev).db)
  {
    var db := Next(cfg, s, ev).db;
    forall i: nat | i < |db.history| && Success(db.history[i]) ensures CompletedAt(db, i) {
      var k :| k in s.db.claims && s.db.claims[k].link == i;
      assert db.claims[k].link == i;
    }
  }

  lemma {:induction false} RunsAreAttributed(cfg: Config, states: seq<Store>, events: seq<Event>, i: nat)
    requires Run(cfg, states, events) && NoReviewLoses(cfg, states, events) && i < |states|
    ensures Attributed(states[i].db)
  {
    if i > 0 {
      RunsAreAttributed(cfg, states, events, i - 1);
      RunsAreLive(cfg, states, events, i - 1);
      StepIsAttributed(cfg, states[i - 1], events[i - 1]);
      assert states[i - 1 + 1] == Next(cfg, states[i - 1], events[i - 1]);
    } else {
      assert forall j: nat :: j < |Init().db.history| ==> Init().db.history[j].from.Created?;
    }
  }

  /** Completion records and transitions match. In every run each record points at a
      transition out of its task's execution state that no other record points at. */
  lemma RecordsPointAtTransitions(cfg: Config, states: seq<Store>, events: seq<Event>, i: nat)
    requires Run(cfg, states, events) && i < |states|
    ensures
      var db := states[i].db;
      forall k :: k in db.claims ==>
        && db.claims[k].link < |db.history| && db.history[db.claims[k].link].from == ExpectedState(k.kind)
        && forall j :: j in db.claims && db.claims[j].link == db.claims[k].link ==> j == k
  {
    RunsAreSafe(cfg, states, events, i);
  }

  /** And, unless a REVIEW lost its claim, each transition out of an execution state
      that does not fail the workflow has exactly one record. */
  lemma CompletionsMatchTransitions(cfg: Config, states: seq<Store>, events: seq<Event>, i: nat)
    requires Run(cfg, states, events) && NoReviewLoses(cfg, states, events) && i < |states|
    ensures
      var db := states[i].db;
      forall l: nat :: l < |db.history| && Success(db.history[l]) ==>
        exists k :: k in db.claims && db.claims[k].link == l
                    && forall j :: j in db.claims && db.claims[j].link == l ==> j == k
  {
    RunsAreSafe(cfg, states, events, i);
    RunsAreAttributed(cfg, states, events, i);
    var db := states[i].db;
    forall l: nat | l < |db.history| && Success(db.history[l])
      ensures exists k :: k in db.claims && db.claims[k].link == l
                          && forall j :: j in db.claims && db.claims[j].link == l ==> j == k
    {
      assert CompletedAt(db, l);
      var k :| k in db.claims && db.claims[k].link == l;
      assert forall j :: j in db.claims && db.claims[j].link == l ==> j == k;
    }
  }
}
