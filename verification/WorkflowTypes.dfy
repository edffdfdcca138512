/** The vocabulary shared by every component: workflow states, task types,
    transition signals, approval actions and task statuses. */
module WorkflowTypes {

  datatype Option<+T> = None | Some(value: T)

  datatype WorkflowState =
    | Created
    | Collecting
    | Collected
    | SelectingTopic
    | NoSuitableTopic
    | TopicSelected
    | GeneratingScenario
    | ScenarioGenerated
    | Reviewing
    | RevisionRequired
    | ReviewPassed
    | AwaitingHumanApproval
    | Approved
    | Rejected
    | ReviewFailed
    | Failed
    | FailedPermanently

  datatype TaskType = Collect | SelectTopic | GenerateScenario | ReviewScenario

  datatype Signal =
    | StageCompleted
    | NoTopicFound
    | CriticRevise
    | CriticPass
    | UnrecoverableError
    | RetriesExhausted
    | ReconciliationRepair

  datatype ApprovalAction = Approve | Reject | RequestRegeneration

  datatype TaskStatus = Pending | Dispatched | InProgress | Completed | TaskFailed | DeadLetter

  predicate Terminal(s: WorkflowState) {
    s.NoSuitableTopic? || s.Approved? || s.Rejected? || s.ReviewFailed? || s.Failed? || s.FailedPermanently?
  }

  predicate Paused(s: WorkflowState) {
    s.AwaitingHumanApproval?
  }

  predicate Transient(s: WorkflowState) {
    !Terminal(s) && !Paused(s)
  }

  /** The four states in which a worker is supposed to be executing a task. */
  predicate Executing(s: WorkflowState) {
    s.Collecting? || s.SelectingTopic? || s.GeneratingScenario? || s.Reviewing?
  }

  predicate InFlight(status: TaskStatus) {
    status.Pending? || status.Dispatched? || status.InProgress?
  }
}
