/** The workflow engine: durable state, the transition executor with its version
    compare-and-swap, and the engine operations built on it. */
module Engine {
  import opened WorkflowTypes
  import opened TransitionTable

  datatype Row = Row(state: WorkflowState, version: nat, revisions: nat)

  /** What a history link was caused by: the history table keeps this as text. */
  datatype Cause = Initiated | Signalled(signal: Signal) | Decided(action: ApprovalAction)

  datatype Link = Link(from: WorkflowState, to: WorkflowState, cause: Cause)

  /** `failures` tallies the failed executions of the task that the worker has
      handled; the original logs them and keeps no count. */
  datatype Task = Task(kind: TaskType, logical: nat, attempt: nat, status: TaskStatus, failures: nat)

  datatype OutboxRow = OutboxRow(task: nat, published: bool)

  /** Within one workflow an idempotency key is its task type and logical version. */
  datatype Key = Key(kind: TaskType, logical: nat)

  /** A completion record, with the position of the history link that was
      committed together with it. */
  datatype Claim = Claim(task: nat, link: nat)

  /** Everything one workflow keeps in the database. Task and outbox ids are
      positions, so fresh ids are distinct. `scenario` is the logical version of
      the active scenario artifact, 0 when there is none, and `artifacts` holds a
      key for each stored artifact: the stage that wrote it, and its version. */
  datatype Durable = Durable(
    row: Row,
    history: seq<Link>,
    tasks: seq<Task>,
    outbox: seq<OutboxRow>,
    claims: map<Key, Claim>,
    scenario: nat,
    artifacts: set<Key>)

  /** The version under which the handler of a stage stores its artifact for a task
      of a logical version, or none when it stores no artifact. */
  type Handlers = (TaskType, nat) -> Option<nat>

  datatype Outcome = Done(db: Durable, enqueued: bool) | Conflict | Invalid

  function KeyOf(t: Task): Key {
    Key(t.kind, t.logical)
  }

  function ResolveForTask(kind: TaskType, scenario: nat, increment: bool): nat {
    if kind.Collect? || kind.SelectTopic? then 1
    else
      var base := if scenario > 1 then scenario else 1;
      if increment then base + 1 else base
  }

  function NewTask(kind: TaskType, logical: nat, attempt: nat): Task {
    Task(kind, logical, attempt, Pending, 0)
  }

  /** Insert a task and its unpublished outbox row. */
  function Dispatch(db: Durable, task: Task): Durable {
    db.(tasks := db.tasks + [task], outbox := db.outbox + [OutboxRow(|db.tasks|, false)])
  }

  function WithStatus(db: Durable, t: nat, status: TaskStatus): Durable
    requires t < |db.tasks|
  {
    db.(tasks := db.tasks[t := db.tasks[t].(status := status)])
  }

  function Advance(row: Row, d: Decision): Row {
    Row(d.to, row.version + 1, if d.countsRevision then row.revisions + 1 else row.revisions)
  }

  /** The writes of one transition: row, history, and the task with its outbox row. */
  function Perform(db: Durable, d: Decision, cause: Cause): Durable {
    var moved := db.(row := Advance(db.row, d), history := db.history + [Link(d.from, d.to, cause)]);
    match d.outbox
    case None => moved
    case Some(kind) => Dispatch(moved, NewTask(kind, ResolveForTask(kind, db.scenario, d.bumpsLogicalVersion), 1))
  }

  /** Transition executor: the writes happen only if the row still has the
      version of the snapshot that the decision was taken on. */
  function Execute(db: Durable, snapshot: Row, d: Decision, cause: Cause): Outcome {
    if db.row.version != snapshot.version then Conflict
    else
      Done(Perform(db, d, cause).(row := Row(d.to, db.row.version + 1,
                                             if d.countsRevision then snapshot.revisions + 1 else db.row.revisions)),
           d.outbox.Some?)
  }

  /** What apply_transition decides on the row it has read. */
  function DecideSignal(maxRevisions: nat, row: Row, expected: WorkflowState, signal: Signal): Option<Decision> {
    if row.state != expected || Terminal(row.state) then None
    else Lookup(row.state, signal, row.revisions, maxRevisions)
  }

  function ApplySignal(maxRevisions: nat, db: Durable, expected: WorkflowState, signal: Signal): (r: Outcome)
    ensures r.Done? ==> db.row.state == expected
    ensures r.Done? ==> db.history <= r.db.history && db.tasks <= r.db.tasks
  {
    if db.row.state != expected then Conflict
    else
      match DecideSignal(maxRevisions, db.row, expected, signal)
      case None => Invalid
      case Some(d) => Execute(db, db.row, d, Signalled(signal))
  }

  function ApplyApproval(db: Durable, action: ApprovalAction): Outcome {
    if db.row.state != AwaitingHumanApproval then Invalid
    else Execute(db, db.row, LookupApproval(action), Decided(action))
  }

  /** Where a human decision leads. */
  function DecisionTarget(action: ApprovalAction): WorkflowState {
    if action.Approve? then Approved else if action.Reject? then Rejected else GeneratingScenario
  }

  /** What a human decision does to the whole database: nothing outside the pause;
      in it, one transition, and a regeneration also dispatches one new GENERATE, one
      version above the active scenario. */
  lemma DecisionsMean(db: Durable, action: ApprovalAction)
    ensures db.row.state != AwaitingHumanApproval ==> ApplyApproval(db, action) == Invalid
    ensures db.row.state == AwaitingHumanApproval ==>
      var decided := db.(
        row := Row(DecisionTarget(action), db.row.version + 1, db.row.revisions),
        history := db.history + [Link(AwaitingHumanApproval, DecisionTarget(action), Decided(action))]);
      ApplyApproval(db, action) ==
      if action.RequestRegeneration? then
        var next := if db.scenario > 1 then db.scenario + 1 else 2;
        Done(decided.(
               tasks := db.tasks + [Task(GenerateScenario, next, 1, Pending, 0)],
               outbox := db.outbox + [OutboxRow(|db.tasks|, false)]), true)
      else Done(decided, false)
  {
  }

  /** The three answers of apply_transition, and what each of them means. */
  lemma RefusalsMean(maxRevisions: nat, db: Durable, expected: WorkflowState, signal: Signal)
    ensures
      var r := ApplySignal(maxRevisions, db, expected, signal);
      && (r.Conflict? <==> db.row.state != expected)
      && (r.Invalid? <==> db.row.state == expected && Lookup(expected, signal, db.row.revisions, maxRevisions).None?)
  {
  }

  /** A re-dispatched task is a new one, under the key that belongs to the active
      scenario: the next version for a generation, the active one for a review. */
  lemma RecreationMeans(db: Durable, kind: TaskType, attempt: nat)
    ensures
      var newest := if db.scenario > 1 then db.scenario else 1;
      var logical :=
        match kind
        case Collect => 1
        case SelectTopic => 1
        case GenerateScenario => newest + 1
        case ReviewScenario => newest;
      RecreateExpectedOutbox(db, kind, attempt) ==
      db.(tasks := db.tasks + [Task(kind, logical, attempt, Pending, 0)],
          outbox := db.outbox + [OutboxRow(|db.tasks|, false)])
  {
  }

  const FRESH_ROW := Row(Created, 1, 0)

  /** The state committed by initiate_workflow. */
  function Initiate(): Durable {
    Perform(Durable(FRESH_ROW, [], [], [], map[], 0, {}), Dispatching(Created, Collecting, Collect), Initiated)
  }

  /** The reconciler's re-dispatch of a missing task. */
  function RecreateExpectedOutbox(db: Durable, kind: TaskType, attempt: nat): Durable {
    Dispatch(db, NewTask(kind, ResolveForTask(kind, db.scenario, kind.GenerateScenario?), attempt))
  }

  /** One workflow's rows in the database, changed in place by the engine. */
  class Database {
    var row: Row
    var history: seq<Link>
    var tasks: seq<Task>
    var outbox: seq<OutboxRow>
    var claims: map<Key, Claim>
    var scenario: nat
    var artifacts: set<Key>

    function View(): Durable
      reads this
    {
      Durable(row, history, tasks, outbox, claims, scenario, artifacts)
    }

    constructor ()
      ensures View() == Initiate()
    {
      row := FRESH_ROW;
      history, tasks, outbox, claims, scenario, artifacts := [], [], [], map[], 0, {};
      new;
      var updated := UpdateWorkflowState(row.version, Collecting, None);
      AppendTransition(Link(Created, Collecting, Initiated));
      CreateTaskWithOutbox(NewTask(Collect, 1, 1));
    }

    /** Optimistic update: refuses when the version has moved on. */
    method UpdateWorkflowState(expectedVersion: nat, newState: WorkflowState, revisions: Option<nat>)
      returns (updated: bool)
      modifies this`row
      ensures updated <==> old(row.version) == expectedVersion
      ensures updated ==>
        row == Row(newState, old(row.version) + 1, if revisions.Some? then revisions.value else old(row.revisions))
      ensures !updated ==> row == old(row)
    {
      if row.version != expectedVersion {
        return false;
      }
      row := Row(newState, row.version + 1, if revisions.Some? then revisions.value else row.revisions);
      return true;
    }

    method AppendTransition(link: Link)
      modifies this`history
      ensures history == old(history) + [link]
    {
      history := history + [link];
    }

    method CreateTaskWithOutbox(task: Task)
      modifies this`tasks, this`outbox
      ensures View() == Dispatch(old(View()), task)
    {
      tasks := tasks + [task];
      outbox := outbox + [OutboxRow(|tasks| - 1, false)];
    }

    method UpdateTask(t: nat, status: TaskStatus)
      requires t < |tasks|
      modifies this`tasks
      ensures View() == WithStatus(old(View()), t, status)
    {
      tasks := tasks[t := tasks[t].(status := status)];
    }

    /** Ordered writes of one transition; a version conflict writes nothing. */
    method ExecuteTransition(snapshot: Row, d: Decision, cause: Cause) returns (r: Outcome)
      modifies this
      ensures r == Execute(old(View()), snapshot, d, cause)
      ensures View() == if r.Done? then r.db else old(View())
    {
      var job := if d.outbox.None? then None
                 else Some(NewTask(d.outbox.value, ResolveForTask(d.outbox.value, scenario, d.bumpsLogicalVersion), 1));
      var updated := UpdateWorkflowState(snapshot.version, d.to,
                                         if d.countsRevision then Some(snapshot.revisions + 1) else None);
      if !updated {
        return Conflict;
      }
      AppendTransition(Link(d.from, d.to, cause));
      if job.Some? {
        CreateTaskWithOutbox(job.value);
      }
      return Done(View(), job.Some?);
    }

    method ApplyTransition(maxRevisions: nat, expected: WorkflowState, signal: Signal) returns (r: Outcome)
      modifies this
      ensures r == ApplySignal(maxRevisions, old(View()), expected, signal)
      ensures r.Conflict? <==> old(row.state) != expected
      ensures r.Invalid? <==>
        old(row.state) == expected && Lookup(expected, signal, old(row.revisions), maxRevisions).None?
      ensures View() == if r.Done? then r.db else old(View())
    {
      var workflow := row;
      if workflow.state != expected {
        return Conflict;
      }
      if Terminal(workflow.state) {
        return Invalid;
      }
      var decision := Lookup(workflow.state, signal, workflow.revisions, maxRevisions);
      if decision.None? {
        return Invalid;
      }
      r := ExecuteTransition(workflow, decision.value, Signalled(signal));
    }

    method ApplyApprovalAction(action: ApprovalAction) returns (r: Outcome)
      modifies this
      ensures r == ApplyApproval(old(View()), action)
      ensures r.Done? <==> old(row.state) == AwaitingHumanApproval
      ensures r.Done? ==>
        && row == Row(DecisionTarget(action), old(row.version) + 1, old(row.revisions))
        && history == old(history) + [Link(AwaitingHumanApproval, DecisionTarget(action), Decided(action))]
        && (!action.RequestRegeneration? ==> tasks == old(tasks) && outbox == old(outbox))
      ensures View() == if r.Done? then r.db else old(View())
    {
      if row.state != AwaitingHumanApproval {
        return Invalid;
      }
      r := ExecuteTransition(row, LookupApproval(action), Decided(action));
    }

    method RecreateOutbox(kind: TaskType, attempt: nat)
      modifies this
      ensures View() == RecreateExpectedOutbox(old(View()), kind, attempt)
    {
      CreateTaskWithOutbox(NewTask(kind, ResolveForTask(kind, scenario, kind.GenerateScenario?), attempt));
    }
  }
}
