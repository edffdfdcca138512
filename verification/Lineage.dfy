/** How logical versions, tasks and completion records relate: the invariant that
    makes a newly dispatched key always a fresh one. */
module Lineage {
  import opened WorkflowTypes
  import opened TransitionTable
  import opened Engine
  import opened Reconcile
  import opened Worker
  import opened Ledger

  /** Successive dispatches of GENERATE_SCENARIO, and of REVIEW_SCENARIO, carry
      strictly increasing logical versions. */
  ghost predicate Increasing(tasks: seq<Task>) {
    && (forall i, j :: 0 <= i < j < |tasks| && tasks[i].kind.GenerateScenario? && tasks[j].kind.GenerateScenario? ==>
          tasks[i].logical < tasks[j].logical)
    && (forall i, j :: 0 <= i < j < |tasks| && tasks[i].kind.ReviewScenario? && tasks[j].kind.ReviewScenario? ==>
          tasks[i].logical < tasks[j].logical)
  }

  predicate AtRest(s: WorkflowState) {
    Executing(s) || Paused(s) || Terminal(s)
  }

  /** Where a REVIEW that lost its claim can leave the workflow. */
  predicate Parked(s: WorkflowState) {
    s.ReviewPassed? || s.RevisionRequired?
  }

  /** States from which the workflow still goes on by itself or by a human. */
  predicate Flowing(s: WorkflowState) {
    Executing(s) || Paused(s)
  }

  ghost predicate TaskLineage(db: Durable, t: Task) {
    match t.kind
    case Collect => t.logical == 1
    case SelectTopic => t.logical == 1
    case GenerateScenario =>
      && 1 <= t.logical <= db.scenario + 1
      && (t.logical <= db.scenario ==> KeyOf(t) in db.claims)
      && (!db.row.state.GeneratingScenario? ==> t.logical <= db.scenario)
    case ReviewScenario =>
      && 1 <= t.logical <= db.scenario
      && (t.logical < db.scenario || !db.row.state.Reviewing? ==> KeyOf(t) in db.claims)
  }

  ghost predicate ClaimLineage(db: Durable, k: Key) {
    match k.kind
    case GenerateScenario => k.logical <= db.scenario
    case ReviewScenario => k.logical <= db.scenario && (db.row.state.Reviewing? ==> k.logical < db.scenario)
    case _ => true
  }

  ghost predicate Descends(db: Durable) {
    && (AtRest(db.row.state) || Parked(db.row.state))
    && Increasing(db.tasks)
    && (Flowing(db.row.state) ==>
          && (forall t :: 0 <= t < |db.tasks| ==> TaskLineage(db, db.tasks[t]))
          && (forall k :: k in db.claims ==> ClaimLineage(db, k))
          && (db.row.state.Collecting? || db.row.state.SelectingTopic? ==> db.scenario == 0)
          && (db.row.state.Reviewing? || db.row.state.AwaitingHumanApproval? ==> db.scenario >= 1))
  }

  /** Outside COLLECT and SELECT_TOPIC there is one task per key. */
  lemma OneTaskPerKey(db: Durable, i: nat, j: nat)
    requires Increasing(db.tasks) && i < |db.tasks| && j < |db.tasks|
    requires KeyOf(db.tasks[i]) == KeyOf(db.tasks[j])
    requires db.tasks[i].kind.GenerateScenario? || db.tasks[i].kind.ReviewScenario?
    ensures i == j
  {
  }

  /** An unclaimed task in its own execution state is the one just dispatched. */
  lemma UnclaimedIsCurrent(cfg: Config, db: Durable, t: nat)
    requires Sound(cfg, db) && Descends(db) && t < |db.tasks|
    requires db.row.state == ExpectedState(db.tasks[t].kind) && KeyOf(db.tasks[t]) !in db.claims
    ensures ScenarioStage(db, t)
    ensures db.tasks[t].kind.GenerateScenario? ==> db.tasks[t].logical == db.scenario + 1
    ensures db.tasks[t].kind.ReviewScenario? ==> db.tasks[t].logical == db.scenario
  {
    assert TaskLineage(db, db.tasks[t]);
  }

  ghost predicate Winning(cfg: Config, db: Durable, t: nat, signal: Signal) {
    && Sound(cfg, db) && Descends(db) && t < |db.tasks|
    && KeyOf(db.tasks[t]) !in db.claims
    && db.row.state == ExpectedState(db.tasks[t].kind)
    && LandingPath(db.tasks[t].kind, signal, db.row.revisions, cfg.maxRevisions) != []
  }

  /** Every task, old or new, fits the landed database. */
  lemma LandingTasksDescend(cfg: Config, db: Durable, t: nat, signal: Signal)
    requires Winning(cfg, db, t, signal)
    ensures
      var landed := Landed(cfg.handlers, cfg.maxRevisions, db, t, signal);
      Flowing(landed.row.state) ==> forall i :: 0 <= i < |landed.tasks| ==> TaskLineage(landed, landed.tasks[i])
  {
    var landed := Landed(cfg.handlers, cfg.maxRevisions, db, t, signal);
    UnclaimedIsCurrent(cfg, db, t);
    LandingJobBelongs(db, t, signal, cfg.maxRevisions);
    if Flowing(landed.row.state) {
      forall i | 0 <= i < |landed.tasks| ensures TaskLineage(landed, landed.tasks[i]) {
        if i < |db.tasks| {
          assert TaskLineage(db, db.tasks[i]);
        }
      }
    }
  }

  /** So does every completion record. */
  lemma LandingClaimsDescend(cfg: Config, db: Durable, t: nat, signal: Signal)
    requires Winning(cfg, db, t, signal)
    ensures
      var landed := Landed(cfg.handlers, cfg.maxRevisions, db, t, signal);
      Flowing(landed.row.state) ==> forall k :: k in landed.claims ==> ClaimLineage(landed, k)
  {
    var landed := Landed(cfg.handlers, cfg.maxRevisions, db, t, signal);
    UnclaimedIsCurrent(cfg, db, t);
    if Flowing(landed.row.state) {
      forall k | k in landed.claims ensures ClaimLineage(landed, k) {
        if k in db.claims {
          assert ClaimLineage(db, k);
        }
      }
    }
  }

  /** The version of a new task is above every earlier one of its kind. */
  lemma LandingTaskIsAbove(cfg: Config, db: Durable, t: nat, signal: Signal, i: nat)
    requires Winning(cfg, db, t, signal) && i < |db.tasks|
    ensures
      var landed := Landed(cfg.handlers, cfg.maxRevisions, db, t, signal);
      |landed.tasks| > |db.tasks| ==> Below(db.tasks[i], landed.tasks[|db.tasks|])
  {
    UnclaimedIsCurrent(cfg, db, t);
    LandingJobBelongs(db, t, signal, cfg.maxRevisions);
    assert TaskLineage(db, db.tasks[i]);
  }

  predicate Below(a: Task, b: Task) {
    a.kind == b.kind && (a.kind.GenerateScenario? || a.kind.ReviewScenario?) ==> a.logical < b.logical
  }

  lemma IncreasingGoesOn(tasks: seq<Task>, next: seq<Task>)
    requires Increasing(tasks) && |tasks| <= |next| <= |tasks| + 1
    requires forall i :: 0 <= i < |tasks| ==> KeyOf(next[i]) == KeyOf(tasks[i])
    requires forall i :: 0 <= i < |tasks| && |tasks| < |next| ==> Below(tasks[i], next[|tasks|])
    ensures Increasing(next)
  {
    assert forall i :: 0 <= i < |tasks| ==> next[i].kind == tasks[i].kind && next[i].logical == tasks[i].logical;
  }

  lemma LandingIncreases(cfg: Config, db: Durable, t: nat, signal: Signal)
    requires Winning(cfg, db, t, signal)
    ensures Increasing(Landed(cfg.handlers, cfg.maxRevisions, db, t, signal).tasks)
  {
    var landed := Landed(cfg.handlers, cfg.maxRevisions, db, t, signal);
    forall i | 0 <= i < |db.tasks| && |db.tasks| < |landed.tasks| ensures Below(db.tasks[i], landed.tasks[|db.tasks|]) {
      LandingTaskIsAbove(cfg, db, t, signal, i);
    }
    IncreasingGoesOn(db.tasks, landed.tasks);
  }

  lemma LandingRests(cfg: Config, db: Durable, t: nat, signal: Signal)
    requires Winning(cfg, db, t, signal)
    ensures
      var landed := Landed(cfg.handlers, cfg.maxRevisions, db, t, signal);
      && AtRest(landed.row.state)
      && (landed.row.state.Collecting? || landed.row.state.SelectingTopic? ==> landed.scenario == 0)
      && (landed.row.state.Reviewing? || landed.row.state.AwaitingHumanApproval? ==> landed.scenario >= 1)
  {
    UnclaimedIsCurrent(cfg, db, t);
  }

  lemma LandingDescends(cfg: Config, db: Durable, t: nat, signal: Signal)
    requires Winning(cfg, db, t, signal)
    ensures Descends(Landed(cfg.handlers, cfg.maxRevisions, db, t, signal))
  {
    LandingTasksDescend(cfg, db, t, signal);
    LandingClaimsDescend(cfg, db, t, signal);
    LandingIncreases(cfg, db, t, signal);
    LandingRests(cfg, db, t, signal);
  }

  /** A commit that changes nothing, or stops the workflow short of its next task. */
  ghost predicate StopsShort(db: Durable, next: Durable) {
    || next == db
    || (!Flowing(next.row.state) && (Parked(next.row.state) || Terminal(next.row.state))
        && |next.tasks| == |db.tasks| && next.outbox == db.outbox
        && forall i :: 0 <= i < |db.tasks| ==> KeyOf(next.tasks[i]) == KeyOf(db.tasks[i]))
  }

  lemma {:induction false} ReviewLoserStopsShort(cfg: Config, db: Durable, t: nat, signal: Signal)
    requires Stored(cfg.handlers, db) && t < |db.tasks| && db.tasks[t].kind.ReviewScenario?
    requires KeyOf(db.tasks[t]) in db.claims
    ensures
      var r := Commit(cfg.handlers, cfg.maxRevisions, db, t, signal);
      r.Done? ==> StopsShort(db, r.db)
  {
    if cfg.handlers(db.tasks[t].kind, db.tasks[t].logical).Some? {
      ClaimedIsTaken(cfg.handlers, db, t);
    } else {
      assert HandlerWrites(cfg.handlers, db, t) == db;
      LosingReviewStopsShort(cfg.maxRevisions, db, t, signal);
    }
  }

  lemma {:induction false} LosingReviewStopsShort(maxRevisions: nat, db: Durable, t: nat, signal: Signal)
    requires t < |db.tasks| && db.tasks[t].kind.ReviewScenario?
    ensures
      var r := CommitLoser(maxRevisions, db, t, signal);
      r.Done? ==> StopsShort(db, r.db)
  {
    if db.row.state.Reviewing? && LandingPath(ReviewScenario, signal, db.row.revisions, maxRevisions) != [] {
      FirstWrites(maxRevisions, db, ReviewScenario, signal);
    } else if db.row.state.Reviewing? {
      FirstStep(maxRevisions, db.row, ReviewScenario, signal);
    }
  }

  /** What losing a claim comes to: nothing, except for a REVIEW. */
  lemma {:induction false} LoserStopsShort(cfg: Config, db: Durable, t: nat, signal: Signal)
    requires ValidConfig(cfg) && Sound(cfg, db) && Stored(cfg.handlers, db) && t < |db.tasks|
    requires KeyOf(db.tasks[t]) in db.claims
    ensures
      var r := Commit(cfg.handlers, cfg.maxRevisions, db, t, signal);
      r.Done? ==> StopsShort(db, r.db) && (!db.tasks[t].kind.ReviewScenario? ==> r.db == db)
  {
    match db.tasks[t].kind
    case GenerateScenario => GenerateClaimIsNeverRejected(cfg, db, t, signal);
    case ReviewScenario => ReviewLoserStopsShort(cfg, db, t, signal);
    case _ => CollectAndSelectLosersAreHarmless(cfg, db, t, signal, false);
  }

  /** Every commit keeps the lineage, whoever holds the lease. */
  lemma {:induction false} CommitDescends(cfg: Config, db: Durable, t: nat, signal: Signal)
    requires ValidConfig(cfg) && Sound(cfg, db) && Stored(cfg.handlers, db) && Descends(db) && t < |db.tasks|
    ensures
      var r := Commit(cfg.handlers, cfg.maxRevisions, db, t, signal);
      r.Done? ==>
        && Descends(r.db)
        && (KeyOf(db.tasks[t]) in db.claims ==>
              StopsShort(db, r.db) && (!db.tasks[t].kind.ReviewScenario? ==> r.db == db))
        && (KeyOf(db.tasks[t]) !in db.claims ==>
              Winning(cfg, db, t, signal) && r.db == Landed(cfg.handlers, cfg.maxRevisions, db, t, signal))
  {
    if KeyOf(db.tasks[t]) in db.claims {
      LoserStopsShort(cfg, db, t, signal);
    } else if db.row.state == ExpectedState(db.tasks[t].kind) {
      CommitLands(cfg.handlers, cfg.maxRevisions, db, t, signal);
      if Commit(cfg.handlers, cfg.maxRevisions, db, t, signal).Done? {
        LandingDescends(cfg, db, t, signal);
      }
    } else {
      CommitElsewhereFails(cfg.handlers, cfg.maxRevisions, db, t, signal);
    }
  }

  lemma CommitElsewhereFails(handlers: Handlers, maxRevisions: nat, db: Durable, t: nat, signal: Signal)
    requires t < |db.tasks| && KeyOf(db.tasks[t]) !in db.claims
    requires db.row.state != ExpectedState(db.tasks[t].kind)
    ensures !Commit(handlers, maxRevisions, db, t, signal).Done?
  {
  }

  /** The database after a regeneration request. */
  function Regenerated(db: Durable): Durable {
    Dispatch(
      db.(row := Row(GeneratingScenario, db.row.version + 1, db.row.revisions),
          history := db.history + [Link(AwaitingHumanApproval, GeneratingScenario, Decided(RequestRegeneration))]),
      NewTask(GenerateScenario, db.scenario + 1, 1))
  }

  lemma ApprovalDescends(db: Durable, action: ApprovalAction)
    requires Descends(db)
    ensures
      var r := ApplyApproval(db, action);
      r.Done? ==>
        && Descends(r.db)
        && (action.RequestRegeneration? ==> r.db == Regenerated(db))
        && (!action.RequestRegeneration? ==> Terminal(r.db.row.state) && r.db.tasks == db.tasks)
  {
    var r := ApplyApproval(db, action);
    if r.Done? && action.RequestRegeneration? {
      forall i | 0 <= i < |r.db.tasks| ensures TaskLineage(r.db, r.db.tasks[i]) {
        if i < |db.tasks| {
          assert TaskLineage(db, db.tasks[i]);
        }
      }
    }
  }

  lemma RetryDescends(db: Durable, t: nat, attempt: nat)
    requires Descends(db) && t < |db.tasks|
    ensures Descends(RetryTask(db, t, attempt))
  {
    var retried := RetryTask(db, t, attempt);
    forall i | 0 <= i < |db.tasks| && Flowing(db.row.state) ensures TaskLineage(retried, retried.tasks[i]) {
      assert TaskLineage(db, db.tasks[i]);
    }
  }

  lemma FailDescends(cfg: Config, db: Durable, t: nat, exhausted: bool)
    requires ValidConfig(cfg) && Descends(db) && t < |db.tasks|
    ensures
      var r := FailTask(cfg.maxRevisions, db, t, exhausted);
      r.Done? ==> Descends(r.db)
  {
    if db.row.state == ExpectedState(db.tasks[t].kind) {
      FailureApplies(cfg.maxRevisions, db, db.tasks[t].kind, exhausted);
    }
  }

  lemma RecollectDescends(db: Durable, attempt: nat)
    requires Descends(db) && db.row.state.Collecting?
    ensures Descends(RecreateExpectedOutbox(db, Collect, attempt))
  {
    var next := RecreateExpectedOutbox(db, Collect, attempt);
    forall i | 0 <= i < |next.tasks| ensures TaskLineage(next, next.tasks[i]) {
      if i < |db.tasks| {
        assert TaskLineage(db, db.tasks[i]);
      }
    }
    forall k | k in next.claims ensures ClaimLineage(next, k) {
      assert ClaimLineage(db, k);
    }
  }

  lemma {:induction false} RepairDescends(cfg: Config, db: Durable, c: Candidate, elapsed: real)
    requires ValidConfig(cfg) && Descends(db)
    requires c.row.version == db.row.version && c.expected.Some? ==>
      db.row.state.Collecting? && c.expected.value.Collect?
    ensures
      var r := RepairOne(cfg, db, c, elapsed);
      r.Repaired? ==>
        && Descends(r.db) && r.db.claims == db.claims && db.tasks <= r.db.tasks && db.outbox <= r.db.outbox
        && (r.db.row == db.row || Terminal(r.db.row.state))
  {
    var r, attempt := RepairShape(cfg, db, c, elapsed);
    if r.Repaired? && attempt > 0 {
      RecollectDescends(db, attempt);
    } else if r.Repaired? && Transient(db.row.state) {
      RepairSignalApplies(cfg.maxRevisions, db);
    }
  }

  /** A freshly dispatched task never has a key that is already claimed. */
  lemma FreshKeyIsUnclaimed(cfg: Config, db: Durable, task: Task)
    requires Sound(cfg, db) && Descends(db)
    requires LandingTask(db.row.state, db.scenario) == Some(task)
    ensures KeyOf(task) !in db.claims
  {
  }
}
