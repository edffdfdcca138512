/** What a worker commits for one delivery: the success path with its idempotency
    claim and bridge transitions, the path of a delivery that lost the claim, and
    the two failure paths. Each is one database transaction. */
module Worker {
  import opened WorkflowTypes
  import opened TransitionTable
  import opened Engine

  predicate PauseAfterEnqueue(s: WorkflowState) {
    s.Collected? || s.TopicSelected? || s.ScenarioGenerated?
  }

  predicate PostStageBridge(s: WorkflowState) {
    s.ReviewPassed? || s.RevisionRequired?
  }

  predicate ActiveAfterBridge(s: WorkflowState) {
    s.SelectingTopic? || s.GeneratingScenario? || s.Reviewing? || s.AwaitingHumanApproval?
  }

  predicate NeedsBridge(s: WorkflowState, enqueued: bool) {
    (enqueued && PauseAfterEnqueue(s)) || PostStageBridge(s)
  }

  /** Bridge transition out of a state the workflow only passes through. One
      step is all it ever takes: what it reaches needs no further bridge. */
  function Bridge(maxRevisions: nat, current: Durable, enqueued: bool): (r: Outcome)
    ensures r.Done? && current.tasks <= r.db.tasks
    ensures !NeedsBridge(r.db.row.state, r.enqueued)
  {
    if !NeedsBridge(current.row.state, enqueued) then Done(current, enqueued)
    else ApplySignal(maxRevisions, current, current.row.state, StageCompleted)
  }

  function ArtifactOf(handlers: Handlers, task: Task): set<Key> {
    match handlers(task.kind, task.logical)
    case None => {}
    case Some(version) => {Key(task.kind, version)}
  }

  /** The artifact that the handler is to store exists already: the artifact table
      holds each type and version of a workflow once. */
  predicate ArtifactTaken(handlers: Handlers, db: Durable, t: nat)
    requires t < |db.tasks|
  {
    ArtifactOf(handlers, db.tasks[t]) * db.artifacts != {}
  }

  /** What the stage handler itself leaves in the database: its artifact, and a
      generated scenario becomes the active one under its task's logical version. */
  function HandlerWrites(handlers: Handlers, db: Durable, t: nat): Durable
    requires t < |db.tasks|
  {
    var task := db.tasks[t];
    db.(artifacts := db.artifacts + ArtifactOf(handlers, task),
        scenario := if task.kind.GenerateScenario? then task.logical else db.scenario)
  }

  /** The path of a delivery whose key somebody else has claimed. */
  function CommitLoser(maxRevisions: nat, db: Durable, t: nat, signal: Signal): Outcome
    requires t < |db.tasks|
  {
    var kind := db.tasks[t].kind;
    var post := PostTransitionState(kind, signal);
    if post.None? then Invalid
    else if db.row.state == post.value then Done(db, false)
    else
      var r := ApplySignal(maxRevisions, db, ExpectedState(kind), signal);
      if r.Done? then Done(WithStatus(r.db, t, Completed), r.enqueued) else r
  }

  /** The path of the delivery that claims the key. */
  function CommitWinner(maxRevisions: nat, db: Durable, t: nat, signal: Signal): Outcome
    requires t < |db.tasks|
  {
    var key := KeyOf(db.tasks[t]);
    var claimed := db.(claims := db.claims[key := Claim(t, |db.history|)]);
    var first := ApplySignal(maxRevisions, claimed, ExpectedState(db.tasks[t].kind), signal);
    if !first.Done? then first
    else
      var last := Bridge(maxRevisions, first.db, first.enqueued);
      Done(WithStatus(last.db, t, Completed), last.enqueued)
  }

  /** The handler transaction: the handler stores its artifact, then its completion
      is claimed. Only a `Done` outcome is committed; a second artifact of the same
      version is refused by the database, which fails the transaction. */
  function Commit(handlers: Handlers, maxRevisions: nat, db: Durable, t: nat, signal: Signal): Outcome
    requires t < |db.tasks|
  {
    var written := HandlerWrites(handlers, db, t);
    if ArtifactTaken(handlers, db, t) then Invalid
    else if KeyOf(db.tasks[t]) in db.claims then CommitLoser(maxRevisions, written, t, signal)
    else CommitWinner(maxRevisions, written, t, signal)
  }

  /** The later of the two attempt numbers. */
  function EffectiveAttempt(task: Task, messageAttempt: nat): (attempt: nat)
    ensures attempt >= task.attempt && attempt >= messageAttempt
    ensures attempt == task.attempt || attempt == messageAttempt
  {
    if task.attempt > messageAttempt then task.attempt else messageAttempt
  }

  /** Retryable failure: back to DISPATCHED with the next attempt number. */
  function RetryTask(db: Durable, t: nat, attempt: nat): Durable
    requires t < |db.tasks|
  {
    db.(tasks := db.tasks[t := db.tasks[t].(status := Dispatched, attempt := attempt + 1,
                                            failures := db.tasks[t].failures + 1)])
  }

  /** Permanent failure: fail the workflow and the task together, or, when the
      workflow is no longer in the task's state, do nothing. */
  function FailTask(maxRevisions: nat, db: Durable, t: nat, exhausted: bool): Outcome
    requires t < |db.tasks|
  {
    var signal := if exhausted then RetriesExhausted else UnrecoverableError;
    var r := ApplySignal(maxRevisions, db, ExpectedState(db.tasks[t].kind), signal);
    if !r.Done? then r
    else
      var task := r.db.tasks[t].(status := if exhausted then DeadLetter else TaskFailed,
                                 failures := r.db.tasks[t].failures + 1);
      Done(r.db.(tasks := r.db.tasks[t := task]), r.enqueued)
  }

  // --- The imperative forms ---

  /** The bridge loop of the worker: it runs until a transition fails, an active
      state is reached or no bridge is needed. */
  method ApplyDispatchBridgeTransitions(database: Database, maxRevisions: nat, enqueued: bool) returns (r: Outcome)
    modifies database
    ensures r == Bridge(maxRevisions, old(database.View()), enqueued)
    ensures database.View() == r.db
  {
    r := Done(database.View(), enqueued);
    var settled := false;
    while !settled && NeedsBridge(r.db.row.state, r.enqueued)
      invariant r.Done? && r.db == database.View()
      invariant settled ==> r == Bridge(maxRevisions, old(database.View()), enqueued)
      invariant !settled ==> r == Done(old(database.View()), enqueued)
      decreases !settled
    {
      r := database.ApplyTransition(maxRevisions, r.db.row.state, StageCompleted);
      settled := !r.Done? || ActiveAfterBridge(r.db.row.state);
    }
  }

  /** Claim, transition, bridge, complete. On an error the writes made so far are
      left in place for the surrounding transaction to roll back. */
  method CommitSuccessPath(database: Database, maxRevisions: nat, t: nat, signal: Signal) returns (r: Outcome)
    requires t < |database.tasks|
    modifies database
    ensures
      var before := old(database.View());
      r == if KeyOf(before.tasks[t]) in before.claims then CommitLoser(maxRevisions, before, t, signal)
           else CommitWinner(maxRevisions, before, t, signal)
    ensures r.Done? ==> database.View() == r.db
  {
    var task := database.tasks[t];
    var key := KeyOf(task);
    if key in database.claims {
      r := ScenarioCLoserPath(database, maxRevisions, t, signal);
      return;
    }
    database.claims := database.claims[key := Claim(t, |database.history|)];
    r := database.ApplyTransition(maxRevisions, ExpectedState(task.kind), signal);
    if !r.Done? {
      return;
    }
    r := ApplyDispatchBridgeTransitions(database, maxRevisions, r.enqueued);
    database.UpdateTask(t, Completed);
    r := Done(database.View(), r.enqueued);
  }

  method ScenarioCLoserPath(database: Database, maxRevisions: nat, t: nat, signal: Signal) returns (r: Outcome)
    requires t < |database.tasks|
    modifies database
    ensures r == CommitLoser(maxRevisions, old(database.View()), t, signal)
    ensures r.Done? ==> database.View() == r.db
  {
    var kind := database.tasks[t].kind;
    var post := PostTransitionState(kind, signal);
    if post.None? {
      return Invalid;
    }
    if database.row.state == post.value {
      return Done(database.View(), false);
    }
    r := database.ApplyTransition(maxRevisions, ExpectedState(kind), signal);
    if r.Done? {
      if !database.tasks[t].status.Completed? {
        database.UpdateTask(t, Completed);
      }
      r := Done(database.View(), r.enqueued);
    }
  }

  /** The handler transaction as a whole: a failing step undoes every write of
      it, the claim and the handler's own artifact included. */
  method RunHandlerTransaction(database: Database, handlers: Handlers, maxRevisions: nat, t: nat, signal: Signal)
    returns (r: Outcome)
    requires t < |database.tasks|
    modifies database
    ensures r == Commit(handlers, maxRevisions, old(database.View()), t, signal)
    ensures database.View() == if r.Done? then r.db else old(database.View())
  {
    var row, history, tasks, outbox := database.row, database.history, database.tasks, database.outbox;
    var claims, scenario, artifacts := database.claims, database.scenario, database.artifacts;
    var artifact := ArtifactOf(handlers, tasks[t]);
    if artifact * artifacts != {} {
      return Invalid;
    }
    database.artifacts := artifacts + artifact;
    if tasks[t].kind.GenerateScenario? {
      database.scenario := tasks[t].logical;
    }
    r := CommitSuccessPath(database, maxRevisions, t, signal);
    if !r.Done? {
      database.row, database.history, database.tasks, database.outbox := row, history, tasks, outbox;
      database.claims, database.scenario, database.artifacts := claims, scenario, artifacts;
    }
  }

  method HandleRetryableFailure(database: Database, t: nat, effectiveAttempt: nat)
    requires t < |database.tasks|
    modifies database
    ensures database.View() == RetryTask(old(database.View()), t, effectiveAttempt)
  {
    var task := database.tasks[t];
    database.tasks := database.tasks[t := task.(status := Dispatched, attempt := effectiveAttempt + 1,
                                                failures := task.failures + 1)];
  }

  method HandlePermanentFailure(database: Database, maxRevisions: nat, t: nat, exhausted: bool) returns (r: Outcome)
    requires t < |database.tasks|
    modifies database
    ensures r == FailTask(maxRevisions, old(database.View()), t, exhausted)
    ensures database.View() == if r.Done? then r.db else old(database.View())
  {
    var signal := if exhausted then RetriesExhausted else UnrecoverableError;
    r := database.ApplyTransition(maxRevisions, ExpectedState(database.tasks[t].kind), signal);
    if !r.Done? {
      return;
    }
    var task := database.tasks[t];
    database.tasks := database.tasks[t := task.(status := if exhausted then DeadLetter else TaskFailed,
                                                failures := task.failures + 1)];
    r := Done(database.View(), r.enqueued);
  }

  // --- Where a winning commit lands ---

  /** The states a winning commit passes through, the last one being where the
      workflow comes to rest; empty when the commit is refused. */
  function LandingPath(kind: TaskType, signal: Signal, revisions: nat, maxRevisions: nat): seq<WorkflowState> {
    match (kind, signal)
    case (_, UnrecoverableError) => [Failed]
    case (_, RetriesExhausted) => [FailedPermanently]
    case (_, ReconciliationRepair) => [Failed]
    case (Collect, StageCompleted) => [Collected, SelectingTopic]
    case (SelectTopic, StageCompleted) => [TopicSelected, GeneratingScenario]
    case (SelectTopic, NoTopicFound) => [NoSuitableTopic]
    case (GenerateScenario, StageCompleted) => [ScenarioGenerated, Reviewing]
    case (ReviewScenario, CriticPass) => [ReviewPassed, AwaitingHumanApproval]
    case (ReviewScenario, CriticRevise) =>
      if revisions >= maxRevisions then [ReviewFailed] else [RevisionRequired, GeneratingScenario]
    case _ => []
  }

  /** The task a winning commit dispatches on its path. */
  function LandingJob(path: seq<WorkflowState>, scenario: nat): Option<Task>
    requires path != []
  {
    var newest := if scenario > 1 then scenario else 1;
    match path[|path| - 1]
    case SelectingTopic => Some(NewTask(SelectTopic, 1, 1))
    case GeneratingScenario =>
      Some(NewTask(GenerateScenario, if path[0].RevisionRequired? then newest + 1 else newest, 1))
    case Reviewing => Some(NewTask(ReviewScenario, newest, 1))
    case _ => None
  }

  /** The task that belongs to an execution state: where a first scenario is
      generated from none, and a review has a scenario to review, it is the one a
      winning commit dispatches there. */
  function LandingTask(rest: WorkflowState, scenario: nat): Option<Task> {
    match rest
    case SelectingTopic => Some(NewTask(SelectTopic, 1, 1))
    case GeneratingScenario => Some(NewTask(GenerateScenario, scenario + 1, 1))
    case Reviewing => Some(NewTask(ReviewScenario, scenario, 1))
    case _ => None
  }

  function LandingLinks(from: WorkflowState, path: seq<WorkflowState>, signal: Signal): seq<Link>
    requires path != []
  {
    [Link(from, path[0], Signalled(signal))]
    + if |path| == 1 then [] else [Link(path[0], path[1], Signalled(StageCompleted))]
  }

  /** The whole effect of a winning commit in one expression. */
  function Landed(handlers: Handlers, maxRevisions: nat, db: Durable, t: nat, signal: Signal): Durable
    requires t < |db.tasks|
    requires LandingPath(db.tasks[t].kind, signal, db.row.revisions, maxRevisions) != []
  {
    var task := db.tasks[t];
    var path := LandingPath(task.kind, signal, db.row.revisions, maxRevisions);
    var rest := path[|path| - 1];
    var scenario := if task.kind.GenerateScenario? then task.logical else db.scenario;
    var job := LandingJob(path, scenario);
    Durable(
      Row(rest, db.row.version + |path|, db.row.revisions + if path[0].RevisionRequired? then 1 else 0),
      db.history + LandingLinks(ExpectedState(task.kind), path, signal),
      db.tasks[t := task.(status := Completed)] + if job.Some? then [job.value] else [],
      db.outbox + if job.Some? then [OutboxRow(|db.tasks|, false)] else [],
      db.claims[KeyOf(task) := Claim(t, |db.history|)],
      scenario,
      db.artifacts + ArtifactOf(handlers, task))
  }

  /** The scenario versions that each stage finds in a run. */
  predicate ScenarioStage(db: Durable, t: nat)
    requires t < |db.tasks|
  {
    match db.tasks[t].kind
    case Collect => true
    case SelectTopic => db.scenario == 0
    case GenerateScenario => db.tasks[t].logical >= 1
    case ReviewScenario => db.scenario >= 1
  }

  /** The task that the first transition of a landing path dispatches. */
  function FirstJob(s: WorkflowState): Option<TaskType> {
    match s
    case Collected => Some(SelectTopic)
    case TopicSelected => Some(GenerateScenario)
    case ScenarioGenerated => Some(ReviewScenario)
    case _ => None
  }

  /** The table's answer to a worker's signal, in terms of the landing path. */
  lemma FirstStep(maxRevisions: nat, row: Row, kind: TaskType, signal: Signal)
    requires row.state == ExpectedState(kind)
    ensures
      var path := LandingPath(kind, signal, row.revisions, maxRevisions);
      DecideSignal(maxRevisions, row, row.state, signal) ==
      if path == [] then None
      else Some(Decision(row.state, path[0], FirstJob(path[0]), path[0].RevisionRequired?, false))
  {
  }

  /** The bridge, in terms of the landing path. */
  lemma SecondStep(maxRevisions: nat, db: Durable, kind: TaskType, signal: Signal, revisions: nat)
    requires var path := LandingPath(kind, signal, revisions, maxRevisions);
             path != [] && db.row.state == path[0]
    ensures
      var path := LandingPath(kind, signal, revisions, maxRevisions);
      Bridge(maxRevisions, db, FirstJob(path[0]).Some?).db ==
      if |path| == 1 then db
      else Perform(db, Decision(path[0], path[1], if path[0].RevisionRequired? then Some(GenerateScenario) else None,
                                false, path[0].RevisionRequired?),
                   Signalled(StageCompleted))
  {
  }

  /** Commit path lands at rest: a winning commit is refused exactly when the
      workflow is elsewhere, the table has no entry or the artifact exists, and
      otherwise its whole effect is `Landed`. */
  lemma {:induction false} CommitLands(handlers: Handlers, maxRevisions: nat, db: Durable, t: nat, signal: Signal)
    requires t < |db.tasks|
    requires KeyOf(db.tasks[t]) !in db.claims
    ensures
      var r := Commit(handlers, maxRevisions, db, t, signal);
      && (r.Done? <==> db.row.state == ExpectedState(db.tasks[t].kind) && !ArtifactTaken(handlers, db, t)
                       && LandingPath(db.tasks[t].kind, signal, db.row.revisions, maxRevisions) != [])
      && (r.Done? ==> r.db == Landed(handlers, maxRevisions, db, t, signal))
  {
    var kind := db.tasks[t].kind;
    if db.row.state == ExpectedState(kind) && !ArtifactTaken(handlers, db, t)
       && LandingPath(kind, signal, db.row.revisions, maxRevisions) != [] {
      WinnerLands(handlers, maxRevisions, db, t, signal);
    } else {
      WinnerIsRefused(handlers, maxRevisions, db, t, signal);
    }
  }

  lemma {:induction false} WinnerIsRefused(handlers: Handlers, maxRevisions: nat, db: Durable, t: nat, signal: Signal)
    requires t < |db.tasks| && KeyOf(db.tasks[t]) !in db.claims
    requires db.row.state != ExpectedState(db.tasks[t].kind) || ArtifactTaken(handlers, db, t)
          || LandingPath(db.tasks[t].kind, signal, db.row.revisions, maxRevisions) == []
    ensures !Commit(handlers, maxRevisions, db, t, signal).Done?
  {
    if db.row.state == ExpectedState(db.tasks[t].kind) {
      FirstStep(maxRevisions, db.row, db.tasks[t].kind, signal);
    }
  }

  /** The first transition, in terms of the landing path. */
  lemma {:induction false} FirstWrites(maxRevisions: nat, db: Durable, kind: TaskType, signal: Signal)
    requires db.row.state == ExpectedState(kind)
    requires LandingPath(kind, signal, db.row.revisions, maxRevisions) != []
    ensures
      var path := LandingPath(kind, signal, db.row.revisions, maxRevisions);
      ApplySignal(maxRevisions, db, db.row.state, signal) ==
      Done(Perform(db, Decision(db.row.state, path[0], FirstJob(path[0]), path[0].RevisionRequired?, false),
                   Signalled(signal)),
           FirstJob(path[0]).Some?)
  {
    FirstStep(maxRevisions, db.row, kind, signal);
  }

  lemma {:induction false} WinnerLands(handlers: Handlers, maxRevisions: nat, db: Durable, t: nat, signal: Signal)
    requires t < |db.tasks| && KeyOf(db.tasks[t]) !in db.claims && !ArtifactTaken(handlers, db, t)
    requires db.row.state == ExpectedState(db.tasks[t].kind)
    requires LandingPath(db.tasks[t].kind, signal, db.row.revisions, maxRevisions) != []
    ensures
      var r := Commit(handlers, maxRevisions, db, t, signal);
      r.Done? && r.db == Landed(handlers, maxRevisions, db, t, signal)
  {
    var kind := db.tasks[t].kind;
    var written := HandlerWrites(handlers, db, t);
    var claimed := written.(claims := written.claims[KeyOf(db.tasks[t]) := Claim(t, |written.history|)]);
    FirstWrites(maxRevisions, claimed, kind, signal);
    var first := ApplySignal(maxRevisions, claimed, db.row.state, signal);
    SecondStep(maxRevisions, first.db, kind, signal, db.row.revisions);
    LandingAddsUp(handlers, maxRevisions, db, t, signal);
  }

  /** The writes of the one or two transitions add up to `Landed`. */
  lemma {:induction false} LandingAddsUp(handlers: Handlers, maxRevisions: nat, db: Durable, t: nat, signal: Signal)
    requires t < |db.tasks|
    requires db.row.state == ExpectedState(db.tasks[t].kind)
    requires LandingPath(db.tasks[t].kind, signal, db.row.revisions, maxRevisions) != []
    ensures
      var path := LandingPath(db.tasks[t].kind, signal, db.row.revisions, maxRevisions);
      var written := HandlerWrites(handlers, db, t);
      var claimed := written.(claims := written.claims[KeyOf(db.tasks[t]) := Claim(t, |written.history|)]);
      var first := Perform(claimed,
                           Decision(db.row.state, path[0], FirstJob(path[0]), path[0].RevisionRequired?, false),
                           Signalled(signal));
      var last := if |path| == 1 then first
                  else Perform(first, Decision(path[0], path[1],
                                               if path[0].RevisionRequired? then Some(GenerateScenario) else None,
                                               false, path[0].RevisionRequired?), Signalled(StageCompleted));
      WithStatus(last, t, Completed) == Landed(handlers, maxRevisions, db, t, signal)
  {
  }

  /** In a run, what a winning commit dispatches is the task that belongs to the
      execution state where it lands. */
  lemma LandingJobBelongs(db: Durable, t: nat, signal: Signal, maxRevisions: nat)
    requires t < |db.tasks| && ScenarioStage(db, t)
    requires LandingPath(db.tasks[t].kind, signal, db.row.revisions, maxRevisions) != []
    ensures
      var path := LandingPath(db.tasks[t].kind, signal, db.row.revisions, maxRevisions);
      var scenario := if db.tasks[t].kind.GenerateScenario? then db.tasks[t].logical else db.scenario;
      LandingJob(path, scenario) == LandingTask(path[|path| - 1], scenario)
  {
  }

  /** What "at rest" means, read off the landing: an execution state with exactly
      one new task, which is the one that executes there, or the approval pause
      or a terminal state with no new task. */
  lemma LandsAtRest(handlers: Handlers, maxRevisions: nat, db: Durable, t: nat, signal: Signal)
    requires t < |db.tasks|
    requires KeyOf(db.tasks[t]) !in db.claims
    ensures
      var r := Commit(handlers, maxRevisions, db, t, signal);
      r.Done? ==>
        var rest := r.db.row.state;
        && (Executing(rest) <==> |r.db.tasks| == |db.tasks| + 1)
        && (Executing(rest) ==> ExpectedState(r.db.tasks[|db.tasks|].kind) == rest
                                && |r.db.outbox| == |db.outbox| + 1
                                && r.db.outbox[|db.outbox|] == OutboxRow(|db.tasks|, false))
        && (!Executing(rest) ==>
              (Paused(rest) || Terminal(rest)) && |r.db.tasks| == |db.tasks| && r.db.outbox == db.outbox)
  {
    CommitLands(handlers, maxRevisions, db, t, signal);
    if LandingPath(db.tasks[t].kind, signal, db.row.revisions, maxRevisions) != [] {
      LandedRests(handlers, maxRevisions, db, t, signal);
    }
  }

  lemma LandedRests(handlers: Handlers, maxRevisions: nat, db: Durable, t: nat, signal: Signal)
    requires t < |db.tasks|
    requires LandingPath(db.tasks[t].kind, signal, db.row.revisions, maxRevisions) != []
    ensures
      var landed := Landed(handlers, maxRevisions, db, t, signal);
      var rest := landed.row.state;
      && (Executing(rest) <==> |landed.tasks| == |db.tasks| + 1)
      && (Executing(rest) ==> ExpectedState(landed.tasks[|db.tasks|].kind) == rest
                              && |landed.outbox| == |db.outbox| + 1
                              && landed.outbox[|db.outbox|] == OutboxRow(|db.tasks|, false))
      && (!Executing(rest) ==>
            (Paused(rest) || Terminal(rest)) && |landed.tasks| == |db.tasks| && landed.outbox == db.outbox)
  {
  }

  /** What losing a claim can do, with no assumption about leases. A handler that
      stores an artifact never gets as far as losing its claim (`Ledger.Stored`);
      one that stores none moves the workflow exactly when the workflow is back in
      the task's execution state and the signal is a worker's, and then leaves it,
      unbridged, one transition on. */
  lemma LoserMovesExactlyWhenReentered(handlers: Handlers, maxRevisions: nat, db: Durable, t: nat, signal: Signal)
    requires t < |db.tasks| && KeyOf(db.tasks[t]) in db.claims
    ensures
      var kind := db.tasks[t].kind;
      var r := Commit(handlers, maxRevisions, db, t, signal);
      && (r.Done? && r.db.row != db.row <==>
            && !ArtifactTaken(handlers, db, t)
            && db.row.state == ExpectedState(kind) && PostTransitionState(kind, signal).Some?)
      && (r.Done? && r.db.row != db.row ==>
            r.db.row.state == LandingPath(kind, signal, db.row.revisions, maxRevisions)[0])
  {
    if db.row.state == ExpectedState(db.tasks[t].kind) {
      FirstStep(maxRevisions, db.row, db.tasks[t].kind, signal);
    }
  }

  /** The whole effect of a losing commit that moves the workflow: one transition, the
      task it dispatches, and its own task completed; no claim. */
  function Lost(handlers: Handlers, maxRevisions: nat, db: Durable, t: nat, signal: Signal): Durable
    requires t < |db.tasks|
    requires LandingPath(db.tasks[t].kind, signal, db.row.revisions, maxRevisions) != []
  {
    var task := db.tasks[t];
    var to := LandingPath(task.kind, signal, db.row.revisions, maxRevisions)[0];
    var scenario := if task.kind.GenerateScenario? then task.logical else db.scenario;
    var newest := if scenario > 1 then scenario else 1;
    var job := FirstJob(to);
    var jobs := if job.None? then [] else [NewTask(job.value, if job.value.SelectTopic? then 1 else newest, 1)];
    Durable(
      Row(to, db.row.version + 1, db.row.revisions + if to.RevisionRequired? then 1 else 0),
      db.history + [Link(ExpectedState(task.kind), to, Signalled(signal))],
      db.tasks[t := task.(status := Completed)] + jobs,
      db.outbox + if job.None? then [] else [OutboxRow(|db.tasks|, false)],
      db.claims,
      scenario,
      db.artifacts + ArtifactOf(handlers, task))
  }

  lemma {:induction false} LoserWrites(handlers: Handlers, maxRevisions: nat, db: Durable, t: nat, signal: Signal)
    requires t < |db.tasks| && KeyOf(db.tasks[t]) in db.claims && !ArtifactTaken(handlers, db, t)
    requires db.row.state == ExpectedState(db.tasks[t].kind)
    requires PostTransitionState(db.tasks[t].kind, signal).Some?
    requires LandingPath(db.tasks[t].kind, signal, db.row.revisions, maxRevisions) != []
    ensures
      var r := Commit(handlers, maxRevisions, db, t, signal);
      r.Done? && r.db == Lost(handlers, maxRevisions, db, t, signal)
  {
    var kind := db.tasks[t].kind;
    FirstStep(maxRevisions, db.row, kind, signal);
    FirstWrites(maxRevisions, HandlerWrites(handlers, db, t), kind, signal);
  }

  /** A losing commit, in full: it is refused if its artifact exists, the signal is not a
      worker's, or the workflow is neither in the task's state nor where the signal
      leads; found where the signal leads it leaves only what the handler wrote; and
      found in the task's state its effect is `Lost`. */
  lemma {:induction false} LoserLands(handlers: Handlers, maxRevisions: nat, db: Durable, t: nat, signal: Signal)
    requires t < |db.tasks| && KeyOf(db.tasks[t]) in db.claims
    ensures
      var r := Commit(handlers, maxRevisions, db, t, signal);
      var e, post := ExpectedState(db.tasks[t].kind), PostTransitionState(db.tasks[t].kind, signal);
      && (r.Done? <==>
            !ArtifactTaken(handlers, db, t) && post.Some? && (db.row.state == post.value || db.row.state == e))
      && (r.Done? && db.row.state != e ==> r.db == HandlerWrites(handlers, db, t))
      && (r.Done? && db.row.state == e ==>
            && LandingPath(db.tasks[t].kind, signal, db.row.revisions, maxRevisions) != []
            && r.db == Lost(handlers, maxRevisions, db, t, signal))
  {
    var kind := db.tasks[t].kind;
    if db.row.state == ExpectedState(kind) {
      FirstStep(maxRevisions, db.row, kind, signal);
      if PostTransitionState(kind, signal).Some? && !ArtifactTaken(handlers, db, t) {
        LoserWrites(handlers, maxRevisions, db, t, signal);
      }
    }
  }
}
