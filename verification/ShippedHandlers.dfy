/** The four stage handlers that the program ships, as far as their artifacts go:
    GENERATE_SCENARIO stores its scenario under its task's logical version, and the
    other three store theirs as version 1, always. */
module ShippedHandlers {
  import opened WorkflowTypes
  import opened Engine
  import opened History
  import opened Reconcile
  import opened Ledger
  import opened Protocol
  import opened ProtocolSafety
  import opened ProtocolGuarantees
  import Worker

  function ShippedVersion(kind: TaskType, logical: nat): Option<nat> {
    Some(if kind.GenerateScenario? then logical else 1)
  }

  ghost predicate UsesShipped(cfg: Config) {
    forall kind: TaskType, logical: nat :: cfg.handlers(kind, logical) == ShippedVersion(kind, logical)
  }

  /** With these handlers no claim is ever rejected, whatever leases do: a delivery
      whose key is claimed is stopped by its artifact, and changes nothing. */
  lemma NoClaimIsRejected(cfg: Config, states: seq<Store>, events: seq<Event>, i: nat, x: nat, signal: Signal)
    requires Run(cfg, states, events) && UsesShipped(cfg)
    requires i < |events| && events[i] == Commit(x, signal)
    requires InRange(states[i], x) && ExecKey(states[i], x) in states[i].db.claims
    ensures states[i + 1].db == states[i].db && states[i + 1].execs[x].phase == Caught(FatalFault)
  {
    StoringHandlersNeverLose(cfg, states, events, i, x, signal);
  }

  lemma ShippedReviewsNeverLose(cfg: Config, states: seq<Store>, events: seq<Event>)
    requires Run(cfg, states, events) && UsesShipped(cfg)
    ensures NoReviewLoses(cfg, states, events)
  {
    ArtifactsKeepReviews(cfg, states, events);
  }

  ghost predicate OneReview(db: Durable) {
    forall j, k :: j in db.claims && k in db.claims && j.kind.ReviewScenario? && k.kind.ReviewScenario? ==> j == k
  }

  /** Once a review is completed, no other can be: its artifact has the same version. */
  lemma SecondReviewIsRefused(cfg: Config, db: Durable, k: Key, t: nat, signal: Signal)
    requires UsesShipped(cfg) && Stored(cfg.handlers, db)
    requires k in db.claims && k.kind.ReviewScenario?
    requires t < |db.tasks| && db.tasks[t].kind.ReviewScenario?
    ensures !Worker.Commit(cfg.handlers, cfg.maxRevisions, db, t, signal).Done?
  {
    assert Key(ReviewScenario, 1) in Worker.ArtifactOf(cfg.handlers, db.tasks[t]) * db.artifacts;
  }

  lemma {:induction false} StepKeepsOneReview(cfg: Config, s: Store, ev: Event)
    requires ValidConfig(cfg) && UsesShipped(cfg) && Safe(cfg, s) && Enabled(s, ev) && OneReview(s.db)
    ensures OneReview(Next(cfg, s, ev).db)
  {
    var db := Next(cfg, s, ev).db;
    forall j, k | j in db.claims && k in db.claims && j.kind.ReviewScenario? && k.kind.ReviewScenario?
      ensures j == k
    {
      if j !in s.db.claims {
        OnlyReview(cfg, s, ev, j, k);
      } else if k !in s.db.claims {
        OnlyReview(cfg, s, ev, k, j);
      }
    }
  }

  /** A review completed by a step is the only one. */
  lemma {:induction false} OnlyReview(cfg: Config, s: Store, ev: Event, j: Key, k: Key)
    requires ValidConfig(cfg) && UsesShipped(cfg) && Safe(cfg, s) && Enabled(s, ev)
    requires j.kind.ReviewScenario? && j !in s.db.claims && j in Next(cfg, s, ev).db.claims
    requires k.kind.ReviewScenario? && k in Next(cfg, s, ev).db.claims
    ensures j == k
  {
    ClaimsComeFromCommits(cfg, s, ev, j);
    if k in s.db.claims {
      SecondReviewIsRefused(cfg, s.db, k, TaskOf(s, ev.x), ev.signal);
    }
  }

  /** In every run at most one review is ever completed. */
  lemma {:induction false} OneReviewCompletes(cfg: Config, states: seq<Store>, events: seq<Event>, i: nat)
    requires Run(cfg, states, events) && UsesShipped(cfg) && i < |states|
    ensures OneReview(states[i].db)
  {
    if i > 0 {
      OneReviewCompletes(cfg, states, events, i - 1);
      RunsAreSafe(cfg, states, events, i - 1);
      StepKeepsOneReview(cfg, states[i - 1], events[i - 1]);
      assert states[i - 1 + 1] == Next(cfg, states[i - 1], events[i - 1]);
    }
  }

  /** So the history has at most one link that leaves REVIEWING without a failure. */
  lemma {:induction false} OneReviewLink(cfg: Config, states: seq<Store>, events: seq<Event>, i: nat, a: nat, b: nat)
    requires Run(cfg, states, events) && UsesShipped(cfg) && i < |states|
    requires
      var history := states[i].db.history;
      && a < |history| && history[a].from.Reviewing? && Success(history[a])
      && b < |history| && history[b].from.Reviewing? && Success(history[b])
    ensures a == b
  {
    var db := states[i].db;
    ShippedReviewsNeverLose(cfg, states, events);
    CompletionsMatchTransitions(cfg, states, events, i);
    RecordsPointAtTransitions(cfg, states, events, i);
    OneReviewCompletes(cfg, states, events, i);
    var j :| j in db.claims && db.claims[j].link == a;
    var k :| k in db.claims && db.claims[k].link == b;
    assert j.kind.ReviewScenario? && k.kind.ReviewScenario?;
  }

  // --- What the history says about revisions and regenerations ---

  lemma {:induction false} RevisionLeavesALink(maxRevisions: nat, history: seq<Link>, row: Row) returns (p: nat)
    requires Replay(maxRevisions, history) == Some(row) && row.revisions > 0
    ensures p < |history| && history[p].from.Reviewing? && history[p].to.RevisionRequired?
  {
    var n := |history| - 1;
    var before := Replay(maxRevisions, history[..n]).value;
    if before.revisions > 0 {
      p := RevisionLeavesALink(maxRevisions, history[..n], before);
    } else {
      p := n;
    }
  }

  lemma {:induction false} RegenerationLeavesALink(maxRevisions: nat, history: seq<Link>, row: Row) returns (p: nat)
    requires Replay(maxRevisions, history) == Some(row) && Regenerations(history) > 0
    ensures p < |history| && history[p].from.AwaitingHumanApproval? && history[p].to.GeneratingScenario?
  {
    var n := |history| - 1;
    if Regenerations(history[..n]) > 0 {
      p := RegenerationLeavesALink(maxRevisions, history[..n], Replay(maxRevisions, history[..n]).value);
    } else {
      p := n;
    }
  }

  lemma {:induction false} ApprovalFollowsReview(maxRevisions: nat, history: seq<Link>, row: Row, p: nat)
    requires Replay(maxRevisions, history) == Some(row)
    requires p < |history| && history[p].from.AwaitingHumanApproval?
    ensures p >= 2 && history[p - 2].from.Reviewing? && history[p - 2].to.ReviewPassed?
  {
    LinkBefore(maxRevisions, history, row, p);
    LinkBefore(maxRevisions, history, row, p - 1);
  }

  /** With these handlers a workflow that was sent back, by the critic or by a human,
      is never approved: its second review cannot be stored. */
  lemma {:induction false} SentBackIsNeverApproved(cfg: Config, states: seq<Store>, events: seq<Event>, i: nat)
    requires Run(cfg, states, events) && UsesShipped(cfg) && i < |states|
    requires states[i].db.row.state.Approved?
    ensures states[i].db.row.revisions == 0 && Regenerations(states[i].db.history) == 0
  {
    RunsAreSafe(cfg, states, events, i);
    var db := states[i].db;
    var n := |db.history|;
    ApprovedWentThroughReviewAndHuman(cfg.maxRevisions, db.history, db.row);
    if db.row.revisions > 0 {
      var p := RevisionLeavesALink(cfg.maxRevisions, db.history, db.row);
      OneReviewLink(cfg, states, events, i, p, n - 3);
    }
    if Regenerations(db.history) > 0 {
      var p := RegenerationLeavesALink(cfg.maxRevisions, db.history, db.row);
      ApprovalFollowsReview(cfg.maxRevisions, db.history, db.row, p);
      OneReviewLink(cfg, states, events, i, p - 2, n - 3);
    }
  }
}
