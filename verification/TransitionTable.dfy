/** The pure transition matrix of the workflow engine, and the copies of parts
    of it that the worker keeps for itself. */
module TransitionTable {
  import opened WorkflowTypes

  /** Outcome of a table lookup: where to go, which task to dispatch, and which
      counters move with it. */
  datatype Decision = Decision(
    from: WorkflowState,
    to: WorkflowState,
    outbox: Option<TaskType>,
    countsRevision: bool,
    bumpsLogicalVersion: bool)

  function Plain(from: WorkflowState, to: WorkflowState): Decision {
    Decision(from, to, None, false, false)
  }

  function Dispatching(from: WorkflowState, to: WorkflowState, kind: TaskType): Decision {
    Decision(from, to, Some(kind), false, false)
  }

  function PrimaryMatrix(s: WorkflowState, signal: Signal): Option<Decision> {
    match (s, signal)
    case (Collecting, StageCompleted) => Some(Dispatching(s, Collected, SelectTopic))
    case (Collected, StageCompleted) => Some(Plain(s, SelectingTopic))
    case (SelectingTopic, StageCompleted) => Some(Dispatching(s, TopicSelected, GenerateScenario))
    case (SelectingTopic, NoTopicFound) => Some(Plain(s, NoSuitableTopic))
    case (TopicSelected, StageCompleted) => Some(Plain(s, GeneratingScenario))
    case (GeneratingScenario, StageCompleted) => Some(Dispatching(s, ScenarioGenerated, ReviewScenario))
    case (ScenarioGenerated, StageCompleted) => Some(Plain(s, Reviewing))
    case (Reviewing, CriticPass) => Some(Plain(s, ReviewPassed))
    case (RevisionRequired, StageCompleted) =>
      Some(Decision(s, GeneratingScenario, Some(GenerateScenario), false, true))
    case (ReviewPassed, StageCompleted) => Some(Plain(s, AwaitingHumanApproval))
    case _ => None
  }

  /** `None` stands for the InvalidTransitionError of the original. */
  function Lookup(s: WorkflowState, signal: Signal, revisions: nat, maxRevisions: nat): Option<Decision> {
    if Terminal(s) || Paused(s) then None
    else if s.Reviewing? && signal.CriticRevise? then
      if revisions >= maxRevisions then Some(Plain(s, ReviewFailed))
      else Some(Decision(s, RevisionRequired, None, true, false))
    else if PrimaryMatrix(s, signal).Some? then PrimaryMatrix(s, signal)
    else if signal.UnrecoverableError? then Some(Plain(s, Failed))
    else if signal.RetriesExhausted? then Some(Plain(s, FailedPermanently))
    else if signal.ReconciliationRepair? then Some(Plain(s, Failed))
    else None
  }

  function LookupApproval(action: ApprovalAction): Decision {
    match action
    case Approve => Plain(AwaitingHumanApproval, Approved)
    case Reject => Plain(AwaitingHumanApproval, Rejected)
    case RequestRegeneration =>
      Decision(AwaitingHumanApproval, GeneratingScenario, Some(GenerateScenario), false, true)
  }

  /** The task whose outbox row a workflow at rest in `s` is supposed to have. */
  function ExpectedOutboxTask(s: WorkflowState): Option<TaskType> {
    match s
    case Collecting => Some(Collect)
    case Collected => Some(SelectTopic)
    case TopicSelected => Some(GenerateScenario)
    case ScenarioGenerated => Some(ReviewScenario)
    case _ => None
  }

  /** The worker's own map from a task to the state in which it may execute. */
  function ExpectedState(kind: TaskType): WorkflowState {
    match kind
    case Collect => Collecting
    case SelectTopic => SelectingTopic
    case GenerateScenario => GeneratingScenario
    case ReviewScenario => Reviewing
  }

  /** The worker's own map from (task, signal) to the state right after the
      transition; `None` stands for the ValueError of the original. */
  function PostTransitionState(kind: TaskType, signal: Signal): Option<WorkflowState> {
    match (kind, signal)
    case (_, RetriesExhausted) => Some(FailedPermanently)
    case (_, UnrecoverableError) => Some(Failed)
    case (Collect, StageCompleted) => Some(Collected)
    case (SelectTopic, StageCompleted) => Some(TopicSelected)
    case (SelectTopic, NoTopicFound) => Some(NoSuitableTopic)
    case (GenerateScenario, StageCompleted) => Some(ScenarioGenerated)
    case (ReviewScenario, CriticPass) => Some(ReviewPassed)
    case (ReviewScenario, CriticRevise) => Some(RevisionRequired)
    case _ => None
  }

  datatype StaleAction = Proceed | AckAndSkip | AckAndSkipApproval | AckAndSkipTerminal

  function ClassifyStaleTask(s: WorkflowState, kind: TaskType): StaleAction {
    if s.AwaitingHumanApproval? then AckAndSkipApproval
    else if Terminal(s) then AckAndSkipTerminal
    else if s != ExpectedState(kind) then AckAndSkip
    else Proceed
  }

  /** Number of further transitions the workflow can make from `s` if the critic
      never asks for another revision and nobody asks for a regeneration. */
  function Depth(s: WorkflowState): nat {
    match s
    case Created => 10
    case Collecting => 9
    case Collected => 8
    case SelectingTopic => 7
    case TopicSelected => 6
    case RevisionRequired => 6
    case GeneratingScenario => 5
    case ScenarioGenerated => 4
    case Reviewing => 3
    case ReviewPassed => 2
    case AwaitingHumanApproval => 1
    case _ => 0
  }

  /** The stale check lets a task through exactly in its own execution state. */
  lemma ProceedsExactlyInItsState(s: WorkflowState, kind: TaskType)
    ensures ClassifyStaleTask(s, kind).Proceed? <==> s == ExpectedState(kind)
    ensures ClassifyStaleTask(s, kind).AckAndSkipApproval? <==> s == AwaitingHumanApproval
    ensures ClassifyStaleTask(s, kind).AckAndSkipTerminal? <==>
      s in {NoSuitableTopic, Approved, Rejected, ReviewFailed, Failed, FailedPermanently}
  {
  }

  /** The worker's post-state table agrees with the engine's matrix on every
      signal it knows, except at the revision cap, where the engine fails the
      review instead; and it knows every signal the engine accepts from a worker
      other than the reconciler's. */
  lemma PostStateAgreesWithTable(kind: TaskType, signal: Signal, revisions: nat, maxRevisions: nat)
    ensures
      var engine := Lookup(ExpectedState(kind), signal, revisions, maxRevisions);
      var worker := PostTransitionState(kind, signal);
      && (worker.Some? <==> engine.Some? && !signal.ReconciliationRepair?)
      && (worker.Some? ==>
            (engine.value.to == worker.value
             <==> !(kind.ReviewScenario? && signal.CriticRevise? && revisions >= maxRevisions)))
  {
  }

  /** The arrows of the workflow that a stage's outcome takes below the revision cap,
      each seen from the state it leads to. */
  predicate Arrow(s: WorkflowState, signal: Signal, to: WorkflowState) {
    match to
    case Collected => s.Collecting? && signal.StageCompleted?
    case SelectingTopic => s.Collected? && signal.StageCompleted?
    case TopicSelected => s.SelectingTopic? && signal.StageCompleted?
    case NoSuitableTopic => s.SelectingTopic? && signal.NoTopicFound?
    case GeneratingScenario => (s.TopicSelected? || s.RevisionRequired?) && signal.StageCompleted?
    case ScenarioGenerated => s.GeneratingScenario? && signal.StageCompleted?
    case Reviewing => s.ScenarioGenerated? && signal.StageCompleted?
    case ReviewPassed => s.Reviewing? && signal.CriticPass?
    case RevisionRequired => s.Reviewing? && signal.CriticRevise?
    case AwaitingHumanApproval => s.ReviewPassed? && signal.StageCompleted?
    case _ => false
  }

  const FAILURES := {UnrecoverableError, RetriesExhausted, ReconciliationRepair}

  lemma PrimaryTakesTheArrows(s: WorkflowState, signal: Signal, to: WorkflowState)
    ensures Arrow(s, signal, to) <==>
      if s.Reviewing? && signal.CriticRevise? then to.RevisionRequired?
      else PrimaryMatrix(s, signal).Some? && PrimaryMatrix(s, signal).value.to == to
  {
  }

  lemma PrimaryIsForProgress(s: WorkflowState, signal: Signal)
    ensures PrimaryMatrix(s, signal).Some? ==>
      Transient(s) && signal !in FAILURES && PrimaryMatrix(s, signal).value.from == s
  {
  }

  /** The table takes exactly the arrows, and in every state that is neither terminal
      nor the pause the three failure signals; at the revision cap a revision fails the
      review instead. */
  lemma TableTakesExactlyTheArrows(
    s: WorkflowState, signal: Signal, revisions: nat, maxRevisions: nat, to: WorkflowState)
    ensures
      var d := Lookup(s, signal, revisions, maxRevisions);
      var capped := s.Reviewing? && signal.CriticRevise? && revisions >= maxRevisions;
      d.Some? && d.value.from == s && d.value.to == to <==>
        if capped then to.ReviewFailed?
        else
          || Arrow(s, signal, to)
          || (Transient(s) && signal in FAILURES
              && to == if signal.RetriesExhausted? then FailedPermanently else Failed)
  {
    PrimaryTakesTheArrows(s, signal, to);
    PrimaryIsForProgress(s, signal);
  }

  /** What a transition dispatches is fixed by where it leads: a stage that is done
      dispatches the next one, and a revision a new generation with a new version. */
  lemma TransitionsDispatchTheNextStage(s: WorkflowState, signal: Signal, revisions: nat, maxRevisions: nat)
    ensures
      var d := Lookup(s, signal, revisions, maxRevisions);
      d.Some? ==>
        && (d.value.outbox == Some(SelectTopic) <==> d.value.to.Collected?)
        && (d.value.outbox == Some(GenerateScenario) <==>
              d.value.to.TopicSelected? || (s.RevisionRequired? && d.value.to.GeneratingScenario?))
        && (d.value.outbox == Some(ReviewScenario) <==> d.value.to.ScenarioGenerated?)
        && d.value.outbox != Some(Collect)
        && (d.value.bumpsLogicalVersion <==> s.RevisionRequired? && d.value.to.GeneratingScenario?)
        && (d.value.countsRevision <==> d.value.to.RevisionRequired?)
  {
  }

  /** The reconciler's table of expected tasks agrees with what the transitions into a
      state dispatch; COLLECTING is entered by initiation, and GENERATING_SCENARIO is
      looked at separately. */
  lemma ExpectedTasksAreTheDispatched(s: WorkflowState, signal: Signal, revisions: nat, maxRevisions: nat)
    ensures
      var d := Lookup(s, signal, revisions, maxRevisions);
      d.Some? && !d.value.to.GeneratingScenario? ==> ExpectedOutboxTask(d.value.to) == d.value.outbox
    ensures ExpectedOutboxTask(Collecting) == Some(Collect)
    ensures ExpectedOutboxTask(GeneratingScenario).None? && ExpectedOutboxTask(Created).None?
  {
  }
}
