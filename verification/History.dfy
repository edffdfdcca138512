/** What a stored history means: replaying it through the table rebuilds the
    workflow row. Everything that holds of all histories is proved here about
    Replay, and every machine that writes history is shown to keep it. */
module History {
  import opened WorkflowTypes
  import opened TransitionTable
  import opened Engine

  /** The row that one recorded cause leads to, if the table permits it. */
  function StepRow(maxRevisions: nat, row: Row, cause: Cause): Option<Row> {
    match cause
    case Initiated =>
      if row.state.Created? then Some(Advance(row, Dispatching(Created, Collecting, Collect))) else None
    case Signalled(signal) =>
      var d := DecideSignal(maxRevisions, row, row.state, signal);
      if d.Some? then Some(Advance(row, d.value)) else None
    case Decided(action) =>
      if row.state.AwaitingHumanApproval? then Some(Advance(row, LookupApproval(action))) else None
  }

  function ReplayLink(maxRevisions: nat, row: Row, link: Link): Option<Row> {
    if link.from != row.state then None
    else
      var next := StepRow(maxRevisions, row, link.cause);
      if next.Some? && next.value.state == link.to then next else None
  }

  /** Rebuild the row from the history alone, starting from a fresh CREATED row;
      `None` as soon as a link does not start where the previous one ended or is
      not what the table prescribes. */
  function Replay(maxRevisions: nat, history: seq<Link>): Option<Row> {
    if |history| == 0 then Some(FRESH_ROW)
    else
      var before := Replay(maxRevisions, history[..|history| - 1]);
      if before.None? then None else ReplayLink(maxRevisions, before.value, history[|history| - 1])
  }

  ghost predicate Faithful(maxRevisions: nat, db: Durable) {
    Replay(maxRevisions, db.history) == Some(db.row)
  }

  /** State of the workflow at a given row version. */
  function StateAt(history: seq<Link>, version: nat): WorkflowState {
    if 2 <= version < |history| + 2 then history[version - 2].to else Created
  }

  function Regenerations(history: seq<Link>): nat {
    if |history| == 0 then 0
    else
      Regenerations(history[..|history| - 1])
      + (if history[|history| - 1].cause == Decided(RequestRegeneration) then 1 else 0)
  }

  /** A bound on the transitions still to come without another regeneration. */
  function Potential(maxRevisions: nat, row: Row): int {
    Depth(row.state) + 4 * (maxRevisions - row.revisions)
  }

  // --- Appending links ---

  lemma ReplayExtends(maxRevisions: nat, history: seq<Link>, row: Row, link: Link)
    requires Replay(maxRevisions, history) == Some(row)
    requires ReplayLink(maxRevisions, row, link).Some?
    ensures Replay(maxRevisions, history + [link]) == ReplayLink(maxRevisions, row, link)
  {
    assert (history + [link])[..|history|] == history;
  }

  lemma InitiateIsFaithful(maxRevisions: nat)
    ensures Faithful(maxRevisions, Initiate())
  {
    ReplayExtends(maxRevisions, [], FRESH_ROW, Initiate().history[0]);
    assert Initiate().history == [] + [Initiate().history[0]];
  }

  /** A transition executed on the current row keeps the history faithful. */
  lemma {:induction false} ExecuteKeepsFaithful(maxRevisions: nat, db: Durable, d: Decision, cause: Cause)
    requires Faithful(maxRevisions, db)
    requires d.from == db.row.state
    requires StepRow(maxRevisions, db.row, cause) == Some(Advance(db.row, d))
    ensures
      var r := Execute(db, db.row, d, cause);
      r.Done? && Faithful(maxRevisions, r.db)
  {
    ReplayExtends(maxRevisions, db.history, db.row, Link(d.from, d.to, cause));
  }

  lemma LookupStartsHere(s: WorkflowState, signal: Signal, revisions: nat, maxRevisions: nat)
    ensures
      var d := Lookup(s, signal, revisions, maxRevisions);
      d.Some? ==> d.value.from == s
  {
  }

  lemma {:induction false} SignalKeepsFaithful(maxRevisions: nat, db: Durable, expected: WorkflowState, signal: Signal)
    requires Faithful(maxRevisions, db)
    ensures
      var r := ApplySignal(maxRevisions, db, expected, signal);
      r.Done? ==> Faithful(maxRevisions, r.db)
  {
    if ApplySignal(maxRevisions, db, expected, signal).Done? {
      var d := DecideSignal(maxRevisions, db.row, expected, signal).value;
      LookupStartsHere(db.row.state, signal, db.row.revisions, maxRevisions);
      ExecuteKeepsFaithful(maxRevisions, db, d, Signalled(signal));
    }
  }

  lemma {:induction false} ApprovalKeepsFaithful(maxRevisions: nat, db: Durable, action: ApprovalAction)
    requires Faithful(maxRevisions, db)
    ensures
      var r := ApplyApproval(db, action);
      r.Done? ==> Faithful(maxRevisions, r.db)
  {
    if ApplyApproval(db, action).Done? {
      ExecuteKeepsFaithful(maxRevisions, db, LookupApproval(action), Decided(action));
    }
  }

  // --- What every faithful history is like ---

  /** A history is a chain from CREATED to the stored state, one link per version bump. */
  lemma {:induction false} FaithfulIsChain(maxRevisions: nat, history: seq<Link>, row: Row)
    requires Replay(maxRevisions, history) == Some(row)
    ensures |history| + 1 == row.version
    ensures |history| > 0 ==> history[0].from == Created
    ensures forall i :: 0 < i < |history| ==> history[i].from == history[i - 1].to
    ensures row.state == if |history| == 0 then Created else history[|history| - 1].to
  {
    if |history| > 0 {
      var shorter := history[..|history| - 1];
      FaithfulIsChain(maxRevisions, shorter, Replay(maxRevisions, shorter).value);
      assert forall i :: 0 <= i < |shorter| ==> shorter[i] == history[i];
    }
  }

  /** Each link is one the table prescribes for the row replayed so far. */
  lemma {:induction false} EveryLinkIsPermitted(maxRevisions: nat, history: seq<Link>, i: nat)
    requires Replay(maxRevisions, history).Some?
    requires i < |history|
    ensures
      var before := Replay(maxRevisions, history[..i]);
      before.Some? && ReplayLink(maxRevisions, before.value, history[i]).Some?
  {
    var shorter := history[..|history| - 1];
    if i < |shorter| {
      EveryLinkIsPermitted(maxRevisions, shorter, i);
      assert shorter[..i] == history[..i];
    }
  }

  lemma StateAtCurrentVersion(maxRevisions: nat, db: Durable)
    requires Faithful(maxRevisions, db)
    ensures StateAt(db.history, db.row.version) == db.row.state
  {
    FaithfulIsChain(maxRevisions, db.history, db.row);
  }

  lemma LinkDescends(maxRevisions: nat, row: Row, link: Link)
    requires row.revisions <= maxRevisions
    requires ReplayLink(maxRevisions, row, link).Some?
    ensures
      var next := ReplayLink(maxRevisions, row, link).value;
      && next.revisions <= maxRevisions
      && if link.cause == Decided(RequestRegeneration)
         then Potential(maxRevisions, next) == Potential(maxRevisions, row) + 4
         else Potential(maxRevisions, next) < Potential(maxRevisions, row)
  {
  }

  /** The revision cap is never exceeded and every history is short: at most
      10 + 4 * maxRevisions + 5 * k transitions with k human regenerations. */
  lemma {:induction false} HistoryIsBounded(maxRevisions: nat, history: seq<Link>, row: Row)
    requires Replay(maxRevisions, history) == Some(row)
    ensures row.revisions <= maxRevisions
    ensures |history| + Potential(maxRevisions, row) <= 10 + 4 * maxRevisions + 5 * Regenerations(history)
    ensures |history| <= 10 + 4 * maxRevisions + 5 * Regenerations(history)
  {
    if |history| > 0 {
      var shorter := history[..|history| - 1];
      var before := Replay(maxRevisions, shorter).value;
      HistoryIsBounded(maxRevisions, shorter, before);
      LinkDescends(maxRevisions, before, history[|history| - 1]);
    }
  }

  /** The only way into each state on the road to approval. */
  lemma OnlyWayInto(maxRevisions: nat, row: Row, link: Link)
    requires ReplayLink(maxRevisions, row, link).Some?
    ensures link.to.Approved? <==> link.cause == Decided(Approve)
    ensures link.to.Rejected? <==> link.cause == Decided(Reject)
    ensures link.cause.Decided? <==> link.from.AwaitingHumanApproval?
    ensures link.cause == Decided(RequestRegeneration) ==> link.to.GeneratingScenario?
    ensures link.to.AwaitingHumanApproval? ==> link.from.ReviewPassed?
    ensures link.to.ReviewPassed? ==> link.from.Reviewing? && link.cause == Signalled(CriticPass)
    ensures link.to.Reviewing? ==> link.from.ScenarioGenerated?
    ensures link.to.ScenarioGenerated? ==> link.from.GeneratingScenario?
  {
  }

  lemma {:induction false} LinkBefore(maxRevisions: nat, history: seq<Link>, row: Row, i: nat)
    requires Replay(maxRevisions, history) == Some(row)
    requires i < |history| && !history[i].from.Created?
    ensures 0 < i && history[i - 1].to == history[i].from
    ensures history[i - 1].to.AwaitingHumanApproval? ==> history[i - 1].from.ReviewPassed?
    ensures history[i - 1].to.ReviewPassed? ==>
      history[i - 1].from.Reviewing? && history[i - 1].cause == Signalled(CriticPass)
    ensures history[i - 1].to.Reviewing? ==> history[i - 1].from.ScenarioGenerated?
    ensures history[i - 1].to.ScenarioGenerated? ==> history[i - 1].from.GeneratingScenario?
  {
    FaithfulIsChain(maxRevisions, history, row);
    EveryLinkIsPermitted(maxRevisions, history, i - 1);
    OnlyWayInto(maxRevisions, Replay(maxRevisions, history[..i - 1]).value, history[i - 1]);
  }

  /** Human gate: an APPROVED workflow got there through a generation, a review
      that passed, and an approval, in its last five transitions. */
  lemma {:induction false} ApprovedWentThroughReviewAndHuman(maxRevisions: nat, history: seq<Link>, row: Row)
    requires Replay(maxRevisions, history) == Some(row)
    requires row.state.Approved?
    ensures |history| >= 5
    ensures
      var n := |history|;
      && history[n - 5].from == GeneratingScenario && history[n - 5].to == ScenarioGenerated
      && history[n - 4].from == ScenarioGenerated && history[n - 4].to == Reviewing
      && history[n - 3].from == Reviewing && history[n - 3].to == ReviewPassed
      && history[n - 2].from == ReviewPassed && history[n - 2].to == AwaitingHumanApproval
      && history[n - 1].from == AwaitingHumanApproval && history[n - 1].to == Approved
      && history[n - 3].cause == Signalled(CriticPass)
      && history[n - 1].cause == Decided(Approve)
  {
    FaithfulIsChain(maxRevisions, history, row);
    var n := |history|;
    EveryLinkIsPermitted(maxRevisions, history, n - 1);
    OnlyWayInto(maxRevisions, Replay(maxRevisions, history[..n - 1]).value, history[n - 1]);
    LinkBefore(maxRevisions, history, row, n - 1);
    LinkBefore(maxRevisions, history, row, n - 2);
    LinkBefore(maxRevisions, history, row, n - 3);
    LinkBefore(maxRevisions, history, row, n - 4);
  }

  /** No signal leaves the approval pause, and nothing at all leaves a terminal state. */
  lemma PauseAndTerminalStatesHold(maxRevisions: nat, row: Row, cause: Cause)
    ensures row.state.AwaitingHumanApproval? && !cause.Decided? ==> StepRow(maxRevisions, row, cause).None?
    ensures Terminal(row.state) ==> StepRow(maxRevisions, row, cause).None?
  {
  }

  /** Once the history reaches a terminal state it cannot be extended. */
  lemma {:induction false} TerminalEndsHistory(maxRevisions: nat, history: seq<Link>, i: nat)
    requires Replay(maxRevisions, history).Some?
    requires i < |history| && Terminal(history[i].to)
    ensures i == |history| - 1
  {
    if i + 1 < |history| {
      EveryLinkIsPermitted(maxRevisions, history, i + 1);
      var before := Replay(maxRevisions, history[..i + 1]).value;
      FaithfulIsChain(maxRevisions, history[..i + 1], before);
      PauseAndTerminalStatesHold(maxRevisions, before, history[i + 1].cause);
    }
  }
}
