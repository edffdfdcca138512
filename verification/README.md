# Verification of the durable cartoon-demo workflow

This project models the durable workflow protocol of the cartoon demo and proves
what it keeps over every run. One workflow row moves through collection, topic
selection, scenario generation, review and human approval, driven by workers that
receive tasks at least once, crash, retry and race, by a publisher that moves
outbox rows to a queue, and by a reconciler that repairs what looks stuck.

How the modules build on each other:

- `WorkflowTypes`, `TransitionTable`, `Engine`: states, the transition matrix, the
  worker's copies of parts of it, and the engine's transactions, once as pure
  functions on the durable state and once as the in-place `Database`, proved equal.
- `History`, `Races`: the history replays to the row, bounds its own length and
  pins down how a workflow got approved, also under racing callers.
- `Worker`: the commit, loser and failure transactions of one delivery, and where a
  winning commit lands.
- `Reconcile`: collection, deduplication and repair of stuck workflows.
- `Ledger`, `Lineage`: what every transaction keeps, the stored artifacts and the
  lineage of logical versions included, with no assumption about leases.
- `Protocol`: publisher, queue, deliveries, leases, approvals and reconciler as one
  step relation. Every transaction is one step; everything else interleaves, and
  crash, redelivery and lease expiry are steps of their own.
- `ProtocolSafety`, `ProtocolProgress`, `ProtocolGuarantees`, `ProtocolAttempts`,
  `ProtocolAcks`: the invariants of that relation and the theorems about all its runs.
- `ShippedHandlers`: what follows from the artifacts that the four handlers store.
- `ProtocolWitness`: four runs that exist, to approval and to the failures named below.
- `LogicalKeys`, `Text`, `Envelope`, `Calendar`: idempotency keys and queue messages
  as text.
- `OutboxPublisher`, `RateLimiter`, `Collector`: the publisher's retry loops, the
  token bucket, and the dedupe-and-rank pipeline.

Handlers are arbitrary: they may return any signal, raise any error and store any
artifact, except that a GENERATE handler stores its scenario under its task's logical
version (`Reconcile.ValidConfig`); the database holds each type and version of
artifact once. Three premises on runs appear, and only where named: `LeasesOutlive`
(a lease runs out only after the delivery that holds it is over), `NoReviewLoses` (no
REVIEW commits on a claimed key, which follows from `LeasesOutlive`, and just as well
from a REVIEW handler that stores an artifact) and `DeliveriesDoNotOverlap`.

What the proofs found, besides what they confirm:

- The REVIEW handler stores its critic review as version 1 every time
  (src/worker/handlers/review_scenario.py:62-67), and a second artifact of the same
  type and version is refused (migrations/persistence/001_initial.sql:61). So at most
  one review of a workflow is ever completed, and a workflow that was sent back, by the
  critic or by a human, is never approved (`ShippedHandlers.OneReviewCompletes`,
  `ShippedHandlers.SentBackIsNeverApproved`). The revision and regeneration theorems
  hold of any handlers, these included.
- For the same reason no claim is ever rejected with these handlers, whatever leases
  do: the artifact stops a late delivery first (`ShippedHandlers.NoClaimIsRejected`).
- A late error can fail a workflow over the head of newer work. When a failure is
  handled although its task is completed, it fails the workflow exactly when it is not
  retried and the workflow is in the task's execution state again, which only GENERATE
  and REVIEW can find (`ProtocolSafety.LateFailureFailsExactlyWhen`), and then another
  task is always outstanding (`ProtocolGuarantees.LateFailureHitsNewerWork`). Leases
  have no part in it: there is such a run with no lease expiring, by an error of the
  release or the acknowledgement after the commit
  (`ProtocolWitness.LateFailureNeedsNoExpiry`), and one with
  (`ProtocolWitness.ExpiredLeaseFailsTheWorkflow`).
- The reconciler's in-flight check protects only COLLECTING. In SELECTING_TOPIC,
  GENERATING_SCENARIO and REVIEWING an overdue workflow is failed by RP-003 while
  its task is in flight; `Reconcile.OverdueFailsExactlyWhen` gives the exact
  condition and `Reconcile.InFlightGenerationIsFailed` the family.
- An acknowledged entry's task need not stay FAILED or DEAD_LETTER. In every run it was
  so at some moment, or is otherwise accounted for (`ProtocolAcks.AckedIsDurable`);
  the status is taken back exactly by a retryable failure of an overlapping delivery
  (`ProtocolAcks.FinalStatusIsTakenBackExactlyBy`), there is a run that does it
  (`ProtocolWitness.AckedTaskIsTakenBack`), and without overlap it stays
  (`ProtocolAcks.AckedIsConcluded`).
- Where strftime's `%Y` does not pad years below 1000, such a message is encoded and
  then discarded as malformed (`Envelope.RoundTrip`, `Envelope.UnpaddedYearIsLost`).
- An unreadable payload makes the worker use another key than the stored one, unless
  the fallback version happens to be right (`LogicalKeys.WorkerAgreesOnTheKey`).
- A clock that goes back breaks the limiter's bound
  (`RateLimiter.BackwardClockBreaksTheBound`); what holds for every clock counts its
  forward steps (`RateLimiter.AnyClockBound`).

Where code and its parts disagree: the executor passes `revision_count` to
`update_workflow_state` (src/workflow/executor.py:59-66), which the PostgreSQL
repository (src/persistence/repos/workflow.py:87-94) does not accept, and the
reconciler's two list queries exist only in src/workflow/fakes/workflow.py:211-232.
The model follows what the workflow module itself calls.

The laws above speak through the functions of the model, so each function that decides
something has a lemma beside it that gives its answer in the inputs themselves, field by
field or as an equivalence (`Engine.DecisionsMean`, `ProtocolSafety.FailureDecision`,
`Reconcile.StuckExactlyWhen`, `RateLimiter.TakeIsExact` and the others named that way).

Check the project with `dafny verify dfyconfig.toml`.

## Model

| member | source | states |
|---|---|---|
| `TransitionTable.ProceedsExactlyInItsState` | src/worker/state_mapping.py:54-77 | The stale check lets a task through if and only if the workflow is in that task's execution state, and tells the pause and the six terminal states apart. |
| `TransitionTable.PostStateAgreesWithTable` | src/worker/state_mapping.py:80-94 | The worker's own post-state table knows exactly the signals the engine's matrix accepts from a worker, and agrees with it except at the revision cap, where the engine goes to REVIEW_FAILED. |
| `TransitionTable.TableTakesExactlyTheArrows` | src/workflow/transition_table.py:113-196 | In every state, on every signal and revision count, the matrix leads exactly along the listed arrows, and from every state on the way along the three failures; at the revision cap a revision fails the review. |
| `TransitionTable.TransitionsDispatchTheNextStage` | src/workflow/transition_table.py:136-196 | What a transition dispatches is fixed by where it leads: the next stage, or a generation one version up after a revision; and exactly the sent-back reviews count as revisions. |
| `TransitionTable.ExpectedTasksAreTheDispatched` | src/workflow/transition_table.py:87-97 | The reconciler's own table of expected tasks agrees with what every transition into the state dispatches. |
| `Engine.Database.constructor` | src/workflow/engine.py:125-170 | Initiation leaves the row in COLLECTING at version 2 with one history link, one COLLECT task and one unpublished outbox row. |
| `Engine.Database.UpdateWorkflowState` | src/persistence/protocols.py:48-57 | Compare-and-swap: writes if and only if the expected version is the stored one, and then bumps it by one. |
| `Engine.Database.CreateTaskWithOutbox` | src/workflow/executor.py:74-95 | Task and unpublished outbox row are inserted together and nothing else changes. |
| `Engine.Database.ExecuteTransition` | src/workflow/executor.py:43-95 | Row, history, task and outbox move together, or, on a version conflict, none of them. |
| `Engine.Database.ApplyTransition` | src/workflow/engine.py:172-270 | The in-place engine operation refines the pure transaction `ApplySignal`; it is a conflict if and only if the state is not the expected one, invalid if and only if it is and the table has no entry, and both write nothing. |
| `Engine.RefusalsMean` | src/workflow/engine.py:181-200 | Which refusal is a conflict and which is invalid, both as equivalences. |
| `Engine.Database.ApplyApprovalAction` | src/workflow/engine.py:272-326 | A human decision is applied if and only if the workflow is in AWAITING_HUMAN_APPROVAL; it leads to APPROVED, REJECTED or GENERATING_SCENARIO by the action alone, with one link and one version bump, and only a regeneration touches tasks or outbox. |
| `Engine.DecisionsMean` | src/workflow/transition_table.py:99-106 | The whole effect of each decision on the database: target, version, link, and for a regeneration one GENERATE one version above the active scenario; outside the pause every decision is refused. |
| `Engine.Database.RecreateOutbox` | src/workflow/executor.py:179-209 | The reconciler's re-dispatch appends one task with the resolved logical version and the given attempt, and its outbox row; the row and the history stay. |
| `Engine.RecreationMeans` | src/workflow/executor.py:179-209 | A re-dispatched GENERATE gets the version after the active one, a REVIEW the active one, the others 1, with the attempt asked for. |
| `History.InitiateIsFaithful` | src/workflow/executor.py:142-177 | The state after initiation is rebuilt from its history. |
| `History.SignalKeepsFaithful` | src/workflow/engine.py:172-270 | A committed signal keeps the invariant that replaying the history from a new workflow through the table gives exactly the stored row. |
| `History.ApprovalKeepsFaithful` | src/workflow/engine.py:272-326 | A committed decision keeps the same invariant. |
| `History.FaithfulIsChain` | src/workflow/executor.py:52-73 | Such a history is a chain from CREATED, its last target is the stored state, and its length is the number of version bumps. |
| `History.EveryLinkIsPermitted` | src/workflow/transition_table.py:113-196 | Every link of such a history is permitted by the table at the revision count reached there. |
| `History.OnlyWayInto` | src/workflow/transition_table.py:52-106 | Every link into APPROVED or REJECTED is that human decision and conversely, decisions are exactly the links out of the pause, and each state on the road to approval has one predecessor. |
| `History.LinkDescends` | src/workflow/transition_table.py:52-106 | Every transition except a regeneration request strictly decreases the potential depth + 4 x remaining revisions; a regeneration raises it by exactly 4. |
| `History.HistoryIsBounded` | src/workflow/transition_table.py:113-196 | With k regenerations the revision count never exceeds the cap and the history has at most 10 + 4 x max_scenario_revisions + 5 x k links. |
| `History.ApprovedWentThroughReviewAndHuman` | src/workflow/transition_table.py:68-84 | Every history ending in APPROVED ends with GENERATING_SCENARIO, SCENARIO_GENERATED, REVIEWING, REVIEW_PASSED (by the critic), AWAITING_HUMAN_APPROVAL, APPROVED (by a human). |
| `History.PauseAndTerminalStatesHold` | src/workflow/transition_table.py:121-134 | No transition leaves a terminal state, and only a human decision leaves AWAITING_HUMAN_APPROVAL. |
| `History.TerminalEndsHistory` | src/workflow/engine.py:186-200 | A link into a terminal state is the last link of its history. |
| `Races.RacesKeepHistoryFaithful` | src/workflow/engine.py:172-270 | Under every interleaving of reads and writes of callers with stale snapshots, the history alone rebuilds the row, and a snapshot of the current version is the current row. |
| `Races.OneCommitPerVersion` | src/workflow/executor.py:52-73 | Of two mutations that commit, the later one was decided on a strictly later version: on one version at most one commits. |
| `Races.StaleWriterChangesNothing` | src/workflow/executor.py:59-73 | A writer whose snapshot is out of date changes nothing. |
| `Worker.ApplyDispatchBridgeTransitions` | src/worker/loop.py:545-595 | The bridge loop terminates and refines the pure function `Bridge`. |
| `Worker.CommitSuccessPath` | src/worker/loop.py:471-543 | Claim, transition, bridge and completion refine the winner's or the loser's transaction, decided by whether the key is claimed. |
| `Worker.ScenarioCLoserPath` | src/worker/loop.py:597-643 | The loser's branch refines `CommitLoser`. |
| `Worker.RunHandlerTransaction` | src/worker/loop.py:331-348 | The handler transaction refines `Commit`: an artifact that exists already refuses it, and when any step fails, the claim, the transition and the artifact are all undone. |
| `Worker.HandleRetryableFailure` | src/worker/loop.py:645-678 | A retryable failure sets only the task, back to DISPATCHED with the next attempt number. |
| `Worker.HandlePermanentFailure` | src/worker/loop.py:680-729 | A permanent failure fails workflow and task in one transaction, or, when the workflow has left the task's state, changes nothing. |
| `Worker.CommitLands` | src/worker/loop.py:522-595 | A commit of an unclaimed key is refused if and only if the workflow is elsewhere, the table has no entry or the artifact exists; otherwise its whole effect on row, history, tasks, outbox, claims, scenario and artifacts is the closed form `Landed`, for every task, signal and revision count. |
| `Worker.LandsAtRest` | src/worker/loop.py:545-595 | For every task, signal and revision count a winning commit ends in an execution state with exactly one new task, the one that executes there, and its unpublished outbox row, or in AWAITING_HUMAN_APPROVAL or a terminal state with no new task. |
| `Worker.LoserMovesExactlyWhenReentered` | src/worker/loop.py:597-643 | With no lease assumption: a claim loser moves the workflow if and only if its artifact is not taken, the workflow is back in the task's execution state and the signal is a worker's, and then leaves it one transition on without the bridge. |
| `Worker.LoserLands` | src/worker/loop.py:597-643 | A losing commit in full: exactly when it is refused, and otherwise that it leaves only what the handler wrote, or, found in the task's state, its whole effect as the closed form `Lost`. |
| `Reconcile.DedupeCandidates` | src/workflow/reconcile.py:159-172 | Each workflow keeps exactly one candidate, the first of its best priority; no workflow is dropped; and the workflows stay in the order in which they first appear. |
| `Reconcile.BestIsFirst` | src/workflow/reconcile.py:162-171 | A workflow's representative is the first in order among its candidates of the least priority number. |
| `Reconcile.PrioritiesRank` | src/workflow/reconcile.py:36 | Stuck goes before missing, missing before waiting, and waiting before left over. |
| `Reconcile.StuckExactlyWhen` | src/workflow/reconcile.py:140-157 | A workflow gives an RP-003 candidate if and only if its row is older than 1800 seconds in an execution state, or 3600 in another transient one, and the last task that is due for it is not in flight. |
| `Reconcile.DueExactlyWhen` | src/workflow/reconcile.py:111-129 | In GENERATING_SCENARIO another GENERATE is due if and only if the last one is not in flight and none is waiting to be published; elsewhere the table decides. |
| `Reconcile.OutboxPatternsExactlyWhen` | src/workflow/reconcile.py:223-279 | Exactly when the second sweep reports RP-002, RP-001 or nothing, and the third RP-004. |
| `Reconcile.FoundSplits` | src/workflow/reconcile.py:190-259 | A sweep is determined row by row, in the order of its rows. |
| `Reconcile.SweepStuck` | src/workflow/reconcile.py:190-221 | The sweep yields exactly the RP-003 candidates of its rows, in their order. |
| `Reconcile.SweepOutbox` | src/workflow/reconcile.py:223-259 | The sweep appends exactly the RP-002 and RP-001 candidates of its rows, in their order. |
| `Reconcile.SweepLeftovers` | src/workflow/reconcile.py:261-279 | The sweep appends the RP-004 candidates of its rows, skipping every workflow that it has seen. |
| `Reconcile.LeftoversMean` | src/workflow/reconcile.py:261-279 | That sweep only adds, each finished workflow with an unpublished row once, and none that an earlier sweep found. |
| `Reconcile.CollectCandidates` | src/workflow/reconcile.py:186-282 | The result is, workflow by workflow, the first batch of those the three sweeps come upon, in that order and none twice; each is justified by the rows read, a stuck workflow is reported as stuck and before all others, and no due workflow is left out unless the batch is full. |
| `Reconcile.RepairIsSafe` | src/workflow/reconcile.py:315-457 | Repairing a candidate never breaks the pass and never alters a terminal or AWAITING_HUMAN_APPROVAL workflow, however the workflow moved since collection. |
| `Reconcile.StuckIsResolved` | src/workflow/reconcile.py:386-447 | An RP-003 candidate still stuck at repair gets one task of the due kind with the last such task's attempt plus one, or 1 when there was none, if that is within the policy, and is changed in nothing else; otherwise it ends FAILED with its tasks as they were. |
| `Reconcile.MissingIsDispatched` | src/workflow/reconcile.py:358-379 | An RP-001 repair adds exactly one task of the due kind, with attempt 1. |
| `Reconcile.OthersAreOnlyReported` | src/workflow/reconcile.py:330-356 | RP-002, RP-004 and candidates whose workflow moved on change nothing. |
| `Reconcile.RedispatchesAreBounded` | src/workflow/reconcile.py:402-447 | However the attempts rise between repairs, RP-003 re-dispatches a dispatched kind of task fewer times than the policy allows attempts; then it fails the workflow. |
| `Reconcile.OverdueFailsExactlyWhen` | src/workflow/reconcile.py:111-157 | An overdue workflow is failed if and only if no task is due for its state or the last due task has used up its attempts and is not in flight. |
| `Reconcile.InFlightGenerationIsFailed` | src/workflow/reconcile.py:120-129 | A generation in flight does not protect its workflow: after 30 minutes RP-003 fails it. |
| `Reconcile.RepairEach` | src/workflow/reconcile.py:315-457 | The repair loop computes the pass step by step, and its counter equals the number of repaired reports. |
| `Reconcile.CountRepairedMeans` | src/workflow/reconcile.py:315-457 | The counter is the number of repaired reports. |
| `Reconcile.ScanAndRepair` | src/workflow/reconcile.py:315-457 | A pass over collected candidates always runs to its end and counts its repaired reports, provided a workflow that at its turn still has its version still has its row. |
| `Reconcile.OneReportEach` | src/workflow/reconcile.py:315-457 | A pass yields exactly one report per candidate, in order. |
| `Reconcile.TurnIsSafe` | src/workflow/reconcile.py:330-356 | Under the same premise each turn never breaks the pass, changes no workflow but its own, and a terminal or paused one not at all. |
| `Reconcile.EvolvingPassTells` | src/workflow/reconcile.py:330-356 | That premise is met whatever the rest of the system does between turns, nothing and new workflows included, as long as it loses no workflow and changes rows only with their versions. |
| `Reconcile.CollectedFitsThePass` | src/workflow/reconcile.py:315-330 | What collection finds meets every premise of the pass, in a world that has evolved since and goes on evolving. |
| `Reconcile.CollectAndRepair` | src/workflow/reconcile.py:315-457 | Collection followed by its pass: no due workflow is left out unless the batch is full, the pass runs to its end with one report per candidate and a true count, and no turn breaks it, alters a terminal or paused workflow or touches another workflow than its own. |
| `Reconcile.EachWorkflowTouchedOnce` | src/workflow/reconcile.py:159-172 | Over distinct candidates a workflow is changed in no turn after its own. |
| `Ledger.MoveKeepsSound` | src/workflow/executor.py:43-95 | Any transition the table permits keeps the database sound (faithful history, valid references, one-way stages, statuses, one link per completion record, bounded attempts) and only adds to it. |
| `Ledger.CommitKeepsSound` | src/worker/loop.py:471-543 | Every committed handler transaction, winner or loser, keeps the database sound, and the key is claimed afterwards. |
| `Ledger.FailKeepsSound` | src/worker/loop.py:692-729 | A permanent failure commits if and only if the workflow is in the task's state; then it is FAILED, or FAILED_PERMANENTLY when exhausted, and no record is added. |
| `Ledger.RetryKeepsSound` | src/worker/loop.py:654-660 | A retry keeps the database sound, and its attempt number within the policy. |
| `Ledger.RepairKeepsSound` | src/workflow/reconcile.py:398-447 | Every repair keeps the database sound, attempts included. |
| `Ledger.ClaimComesWithItsTransition` | src/worker/loop.py:510-543 | A completion record is committed together with exactly one link that leaves its task's execution state; any other link of that commit leaves a state only passed through. |
| `Ledger.CommitKeepsStored` | src/worker/handlers/base.py:68-94 | Every commit keeps the stored artifacts exactly those of the claimed keys. |
| `Ledger.ScenarioIsTakenWhenClaimed` | src/persistence/repos/artifact.py:70-75 | A scenario version is stored, and so refused to others, if and only if its key is claimed. |
| `Ledger.GenerateClaimIsNeverRejected` | src/worker/handlers/generate_scenario.py:80-85 | With no lease premise: a GENERATE whose key is claimed is refused by its artifact and never reaches the claim. |
| `Ledger.CollectAndSelectLosersAreHarmless` | src/worker/loop.py:518-521 | A claim loser on COLLECT or SELECT_TOPIC changes nothing, neither in its transaction nor on the failure path after it. |
| `Lineage.CommitDescends` | src/workflow/outbox_builder.py:42-57 | Every commit, whoever holds the lease, keeps the lineage of logical versions: GENERATE versions strictly increase, claimed versions never exceed the active scenario, and a REVIEW is of the active one. |
| `Lineage.LoserStopsShort` | src/worker/loop.py:597-643 | Losing a claim changes nothing, except that a REVIEW may stop the workflow short, in a state that dispatches nothing. |
| `Lineage.ApprovalDescends` | src/workflow/transition_table.py:99-106 | A regeneration dispatches exactly one GENERATE, one version above the active scenario; other decisions dispatch nothing and end the workflow. |
| `Lineage.UnclaimedIsCurrent` | src/workflow/outbox_builder.py:135-156 | An unclaimed task in its own execution state carries the one current version. |
| `Lineage.OneTaskPerKey` | src/workflow/outbox_builder.py:42-57 | No two GENERATE tasks and no two REVIEW tasks share a key. |
| `ProtocolSafety.RunsAreSafe` | src/worker/loop.py:217-418 | In every state of every run, under any interleaving of publish, redelivery, crash, retry, lease expiry, approval and repair, the whole safety invariant holds. |
| `ProtocolSafety.ClaimsAreForever` | src/worker/idempotency.py:58-71 | A completion record, once committed, is never changed or withdrawn, so a key is claimed by at most one delivery. |
| `ProtocolSafety.ClaimsComeFromCommits` | src/worker/loop.py:331-348 | A record appears only in a committing step, for that delivery's key, with the one transition out of its execution state. |
| `ProtocolSafety.CollectAndSelectLosersChangeNothing` | src/worker/loop.py:386-411 | In any safe state a COLLECT or SELECT_TOPIC delivery whose key is claimed leaves the database and the queue unchanged, even if its lease expired, on its commit and on its failure path; only a failure that is retried writes, and that its own task alone. |
| `ProtocolSafety.OnlyAckAcknowledges` | src/worker/loop.py:366-411 | Retries, lease conflicts, deferrals, commits and crashes leave every entry pending. |
| `ProtocolSafety.DeadEndIsMarked` | src/worker/loop.py:692-729 | The failure step marks the task FAILED or DEAD_LETTER and fails the workflow in one step, or leaves everything as it was. |
| `ProtocolSafety.FailureDecision` | src/worker/loop.py:386-411 | The failure step in attempt numbers and in full: a retryable error below max_attempts sets the task to DISPATCHED with the next attempt and nothing else; any other fails workflow and task together, permanently if and only if the attempts are used up and a handler exists, when the workflow is in the task's state, and otherwise changes nothing. |
| `ProtocolSafety.RetryableErrorsUseAllAttempts` | src/worker/retry.py:116-118 | In every run a retryable error that moves the workflow came from a delivery at exactly max_attempts, and leaves FAILED_PERMANENTLY and a dead letter. |
| `ProtocolSafety.MessagesCarryAttempts` | src/runtime/outbox.py:174-190 | A published entry carries its task's current attempt, and a delivery starts with the later of the message's and the task's. |
| `ProtocolSafety.ChecksBeforeExecution` | src/worker/loop.py:244-291 | Exactly which deliveries are skipped as stale, turned away by a lease, or found to be duplicates. |
| `ProtocolSafety.LeasesAreGivenBack` | src/worker/loop.py:354-355 | A delivery that has released or returned holds no lease, and every other lease stays. |
| `ProtocolSafety.AcknowledgingMeans` | src/worker/loop.py:358-360 | An acknowledgement concerns one pending entry, and the error of a repeated one is caught inside the delivery. |
| `ProtocolSafety.DeliveriesEndAlone` | src/worker/loop.py:331-354 | A deferred, failing or crashing delivery, and one whose commit is refused, moves alone: database, queue, leases and every other delivery stay. |
| `ProtocolSafety.OutsideStepsMean` | src/workflow/engine.py:272-326 | The exact effect of marking a row published, of a lease running out, of a human decision and of collecting a candidate, and that they touch nothing else. |
| `ProtocolSafety.RepairStepMeans` | src/workflow/reconcile.py:320-356 | A candidate whose workflow moved on is left alone; one that is missing or still stuck is always repaired. |
| `ProtocolSafety.NoDeliveryIsStuck` | src/worker/loop.py:217-418 | In every safe state a delivery that is not over can crash and has its next step, whatever its handler returns or raises. |
| `ProtocolSafety.NoEntryIsStuck` | src/worker/loop.py:217-256 | A stream entry can be received if and only if it is un-acked, and its row can always be marked and published again. |
| `ProtocolSafety.LateFailureFailsExactlyWhen` | src/worker/loop.py:386-411 | A failure handled although its key is claimed changes the workflow row if and only if it is not retried and the workflow is in the task's execution state; then the workflow is FAILED or FAILED_PERMANENTLY and the task is a GENERATE or a REVIEW. |
| `ProtocolSafety.RunsKeepHistory` | src/workflow/engine.py:245-270 | In every run of the whole protocol the history replays to the row, obeys the length bound and the revision cap, and APPROVED needed the critic and a human. |
| `ProtocolSafety.AttemptsStayBounded` | src/worker/retry.py:50-56 | In every run every task's and every delivery's attempt stays within 1..max_attempts, whatever stale numbers workers act on. |
| `ProtocolProgress.RunsAreLive` | src/worker/loop.py:217-418 | In every run, with no lease premise, every reachable state keeps lineage, tame reconciliation candidates and an awaited task. |
| `ProtocolProgress.RunsAreExclusive` | src/worker/lease.py:48-60 | If leases outlive the executions they guard, a delivery between lease and commit holds the lease of its task, and nobody completes its GENERATE or REVIEW meanwhile. |
| `ProtocolProgress.JustifiedIsTame` | src/workflow/reconcile.py:111-129 | In a run the reconciler can only ever re-dispatch a COLLECT. |
| `ProtocolGuarantees.NoLostWork` | src/workflow/executor.py:59-82 | In every run, whatever leases do, in every executing state some task of the matching type has an unclaimed key, a non-final status, and an unpublished outbox row or an un-acked entry. |
| `ProtocolGuarantees.LateFailureHitsNewerWork` | src/worker/loop.py:692-729 | In every run such a late failure fails the workflow while another task, not its own, could still move it on. |
| `ProtocolGuarantees.AlwaysAtRest` | src/worker/loop.py:531-543 | Unless a REVIEW loses its claim, COLLECTED, TOPIC_SELECTED, SCENARIO_GENERATED, REVIEW_PASSED and REVISION_REQUIRED are never seen between steps. |
| `ProtocolGuarantees.GenerateAndReviewNeverLose` | src/worker/loop.py:518-521 | If leases outlive the executions they guard, a GENERATE or REVIEW delivery that reaches its commit has an unclaimed key, no other task has that key, and no other delivery of the task is executing. |
| `ProtocolGuarantees.StoringHandlersNeverLose` | src/worker/loop.py:331-348 | In every run a delivery with a claimed key whose handler stores an artifact, GENERATE always included, commits nothing and is left with an error. |
| `ProtocolGuarantees.LeasesKeepReviews` | src/worker/loop.py:518-521 | No REVIEW loses its claim while leases outlive the executions they guard. |
| `ProtocolGuarantees.ArtifactsKeepReviews` | src/worker/handlers/review_scenario.py:62-67 | Nor, whatever leases do, when the REVIEW handler stores an artifact. |
| `ProtocolGuarantees.DispatchedKeysAreFresh` | src/workflow/outbox_builder.py:135-156 | In every run, whatever leases do and across revisions, regenerations and repairs, every dispatched task has an unclaimed key and executes in the state just entered; its version is above all earlier ones of its kind, and a REVIEW carries the newest GENERATE's version. |
| `ProtocolGuarantees.RecordsPointAtTransitions` | src/worker/loop.py:510-543 | In every run every completion record points at a transition out of its task's execution state that no other record points at. |
| `ProtocolGuarantees.CompletionsMatchTransitions` | src/worker/loop.py:510-543 | Unless a REVIEW lost its claim, every transition out of an execution state that does not fail the workflow has exactly one completion record. |
| `ProtocolAttempts.RunsArePaced` | src/worker/retry.py:50-56 | When deliveries of a task do not overlap, messages are never ahead of their task and each handled failure has used up one attempt. |
| `ProtocolAttempts.FailuresStayBounded` | src/worker/retry.py:116-118 | In such a run a task fails at most max_attempts times, and the failure that reaches that number has ended the workflow. |
| `ProtocolAcks.AckedIsDurable` | src/worker/loop.py:248-256 | In every run, with no premise, an acknowledged entry has a completion record for its key, or its task was FAILED or DEAD_LETTER at some moment and the workflow is over, or the worker had looked at the workflow outside the task's execution state. |
| `ProtocolAcks.AckedIsConcluded` | src/worker/loop.py:692-729 | When deliveries of a task do not overlap, the task of an acknowledged entry is FAILED or DEAD_LETTER now, or its key is completed, or the worker had looked outside the execution state. |
| `ProtocolAcks.FinalStatusIsTakenBackExactlyBy` | src/worker/loop.py:654-660 | A FAILED or DEAD_LETTER status is taken back by a step if and only if the step is a retryable failure, with attempts left, of a delivery of that task; it had passed its stale check while the workflow was still executing the task. |
| `ShippedHandlers.NoClaimIsRejected` | src/worker/handlers/base.py:68-94 | With the shipped handlers, in every run, a delivery whose key is claimed is stopped by its artifact and changes nothing. |
| `ShippedHandlers.OneReviewCompletes` | src/worker/handlers/review_scenario.py:62-67 | With the shipped handlers at most one review key of a workflow is ever claimed. |
| `ShippedHandlers.SentBackIsNeverApproved` | src/worker/handlers/review_scenario.py:62-67 | With the shipped handlers an approved workflow has no revision and no regeneration in its history. |
| `ProtocolWitness.ApprovalIsReachable` | src/worker/loop.py:217-418 | For every configuration there is a run of the protocol, no lease expiring, that ends with the workflow approved. |
| `ProtocolWitness.ExpiredLeaseFailsTheWorkflow` | src/worker/loop.py:386-411 | For every configuration there is a run in which the lease of a running GENERATE expires under it, its key is claimed and its scenario sent back meanwhile, and whose last step, the handling of that delivery's failure, fails the workflow although the next GENERATE, another task, is outstanding. |
| `ProtocolWitness.LateFailureNeedsNoExpiry` | src/worker/loop.py:354-360 | For every configuration there is a run with no lease expiring and the same end: the failing delivery's GENERATE key is claimed, its scenario was sent back once, the next GENERATE is outstanding, and the last step handles the failure and fails the workflow. |
| `ProtocolWitness.AckedTaskIsTakenBack` | src/worker/loop.py:654-660 | Wherever a COLLECT may be tried twice there is a run, no lease expiring, that ends with an acknowledged entry whose task is DISPATCHED, its key unclaimed, and the worker having looked in COLLECTING. |
| `LogicalKeys.KeyTextIsInjective` | src/workflow/outbox_builder.py:60-63 | The key text determines workflow id, task type and logical version for all workflow ids, colons included. |
| `LogicalKeys.KeyTextsAre` | src/workflow/outbox_builder.py:60-63 | The four key texts of a workflow, written out. |
| `LogicalKeys.WorkerAgreesOnTheKey` | src/worker/idempotency.py:81-136 | The worker recomputes the stored key if and only if the payload is readable, or the kind is fixed at version 1, or the fallback version is the stored one. |
| `LogicalKeys.UnreadablePayloadMistakesTheKey` | src/worker/idempotency.py:111-114 | A regenerated scenario whose payload is unreadable is taken for the first one. |
| `OutboxPublisher.OutboxRetrySchedule` | src/runtime/outbox.py:63-75 | The doubling loop equals min(initial x 2^i, max) at every index. |
| `OutboxPublisher.DelaysNeverShrink` | src/runtime/outbox.py:63-75 | Delays never shrink, never exceed the cap, and stay at the cap once there. |
| `OutboxPublisher.RetryLoopSleepIsCapped` | src/runtime/outbox.py:103-119 | A retry loop of n attempts sleeps at most (n - 1) x max_seconds. |
| `OutboxPublisher.Publisher.EnqueueWithRetry` | src/runtime/outbox.py:83-119 | The verdict is that of the first call not answered by unavailability; the row is logged as enqueued exactly on success; the time slept is the sum of the delays between calls. |
| `OutboxPublisher.Publisher.MarkPublishedWithRetry` | src/runtime/outbox.py:122-152 | The same for marking, where an unknown error escapes. |
| `OutboxPublisher.EnqueueVerdictMeans` | src/runtime/outbox.py:83-119 | In the replies alone: enqueueing fails for now if and only if every call is unavailable, and otherwise the first other answer decides the verdict. |
| `OutboxPublisher.MarkVerdictMeans` | src/runtime/outbox.py:122-152 | The same for marking, where every other answer but acceptance escapes. |
| `OutboxPublisher.NapsMean` | src/runtime/outbox.py:103-119 | The number of sleeps, in the replies alone: one for each unavailable call before the answer, and one less than the attempts when no answer comes. |
| `OutboxPublisher.GivingUpTakesFifteenSeconds` | src/runtime/outbox.py:63-75 | With the shipped constants a queue that stays unavailable is called five times over 15 seconds of sleep. |
| `OutboxPublisher.Publisher.PublishRow` | src/runtime/outbox.py:243-258 | One row is enqueued and then marked, in that order, or fails; a missing task is a permanent failure. |
| `OutboxPublisher.RowsMean` | src/runtime/outbox.py:243-258 | Which verdict and which calls each row gets: nothing without a task, no mark without an enqueue, and the verdict of the last call made. |
| `OutboxPublisher.Publisher.PublishBatch` | src/runtime/outbox.py:237-264 | A batch returns if and only if no row meets an uncaught error; then fetched = published + failed + skipped, published is the number of marks made, and no row was ever marked before it was enqueued. |
| `OutboxPublisher.MarksMean` | src/runtime/outbox.py:237-264 | The published count is the number of marks in the log. |
| `RateLimiter.ClientRateLimiter.constructor` | src/providers/rate_limit.py:20-40 | A limiter without a positive rate is disabled; any other starts full. |
| `RateLimiter.ClientRateLimiter.Acquire` | src/providers/rate_limit.py:42-60 | One call refines the pure step `Take`, keeps tokens in range whatever the clock reads, and with a whole token stored grants and keeps the rest. |
| `RateLimiter.NewLimiterMeans` | src/providers/rate_limit.py:20-40 | Exactly when a limiter is disabled; any other starts with a minute's calls and earns them in a minute. |
| `RateLimiter.TakeIsExact` | src/providers/rate_limit.py:46-60 | Tokens after a call and the token granted are the tokens before plus the forward time times the rate, cut at the capacity; a call is granted if and only if that is a whole token. |
| `RateLimiter.StoredTokensAreKept` | src/providers/rate_limit.py:49-54 | A whole token grants the call and all the others stay, whatever the clock reads. |
| `RateLimiter.FirstCallsAreGranted` | src/providers/rate_limit.py:49-54 | A new limiter of n calls a minute grants its first n calls on every clock. |
| `RateLimiter.RunsStayValid` | src/providers/rate_limit.py:46-54 | In every run of calls tokens stay in [0, capacity]. |
| `RateLimiter.AnyClockBound` | src/providers/rate_limit.py:46-54 | For every clock the grants among any consecutive calls are at most the capacity plus the sum of the clock's forward steps between them times the rate. |
| `RateLimiter.WindowBound` | src/providers/rate_limit.py:46-54 | For every run with a non-decreasing clock, the grants among any consecutive calls are at most capacity + elapsed x capacity / 60. |
| `RateLimiter.GrantAfterDenial` | src/providers/rate_limit.py:47-54 | A call at least 60 / capacity seconds after a refusal, with none between, is granted. |
| `RateLimiter.DisabledGrantsAll` | src/providers/rate_limit.py:43-44 | A disabled limiter grants every call and never changes. |
| `RateLimiter.BackwardClockBreaksTheBound` | src/providers/rate_limit.py:48-50 | With a clock that jumps back, a limiter of one call a minute grants any number of calls at times within one minute. |
| `Collector.Dedupe` | src/collector/dedupe.py:15-41 | The loop computes the kept and the rejected stories of the specification. |
| `Collector.PositionsAreExact` | src/collector/dedupe.py:23-39 | The positions of first occurrences (and of the others) are in order and complete. |
| `Collector.KeepsExactlyTheFirst` | src/collector/dedupe.py:23-41 | The kept stories are exactly the first occurrences, in input order. |
| `Collector.RejectsExactlyTheOthers` | src/collector/dedupe.py:25-36 | The rejections are exactly the other stories, in input order. |
| `Collector.DedupeConserves` | src/collector/dedupe.py:19-41 | Kept and rejected stories together are the input, as multisets. |
| `Collector.KeptIdentitiesAreDistinct` | src/collector/dedupe.py:23-39 | Every identity of the input is kept exactly once. |
| `Collector.DuplicatesMean` | src/collector/dedupe.py:23-36 | Stories are the same exactly when source and source id both are, and a rejection repeats the story's own four fields. |
| `Collector.ReferencePublishedAt` | src/collector/ranker.py:69-75 | The reference time is the latest publication time, or none. |
| `Collector.RecencyFavoursTheNew` | src/collector/ranker.py:92-100 | Recency is 1 exactly for the newest story, falls with age, stays positive, and is 0 without a time. |
| `Collector.RecencyIsExact` | src/collector/ranker.py:92-100 | Recency times one plus the age in hours is 1. |
| `Collector.ScoreIsTheWeightedSum` | src/collector/ranker.py:77-90 | The score is the sum of points, comments and recency, each with its own weight and zero when missing. |
| `Collector.BetterStoriesScoreNoLess` | src/collector/ranker.py:77-90 | With non-negative weights a story no worse in points, comments and recency never scores less. |
| `Collector.Rank` | src/collector/ranker.py:46-67 | The ranking holds exactly the stories scored against the latest publication time; scores never rise along it and equal scores are in order of source id; the candidates are its first, as many as asked for, and no other story scores higher. |
| `Collector.SortIsSorted` | src/collector/ranker.py:60-66 | The ranking is a sorted permutation of the scored stories. |
| `Collector.StringLeqMeans` | src/collector/ranker.py:60-66 | Source ids are compared character by character: the first difference decides, and a prefix comes first. |
| `Collector.RankIgnoresOrder` | src/collector/ranker.py:53-67 | For stories with distinct identities the ranking is the same for every input order. |
| `Collector.CandidatesAreTheBest` | src/collector/ranker.py:67 | No story outside the candidates ranks before one inside, and ranking loses no story. |
| `Envelope.EncodesExactlyTheValid` | src/task_queue/validation.py:25-40 | Encoding succeeds if and only if the ids are not blank, the attempt is positive and the time is aware and representable in UTC. |
| `Envelope.MissingMeans` | src/task_queue/validation.py:25-40 | Exactly which fields a refused message is told to lack. |
| `Envelope.MalformedMeans` | src/task_queue/validation.py:42-77 | Exactly which fields a malformed stream entry is said to lack. |
| `Envelope.EntryTimeMeans` | src/task_queue/validation.py:121-129 | The time of an entry is what the parser reads of the trimmed text; a naive one counts as none. |
| `Envelope.OverflowMeans` | src/task_queue/validation.py:93-129 | Decoding overflows if and only if the entry has a time that leaves the calendar in UTC, whatever else is wrong with it. |
| `Envelope.RoundTrip` | src/task_queue/serializer.py:42-97 | For all parsers of times and numbers that read what encoding writes, decoding an encoded message gives it back with ids trimmed, time in UTC and the non-empty traceparent and tracestate, if and only if its year was written with four digits; otherwise it is refused for created_at alone. |
| `Envelope.ParsersExist` | src/task_queue/validation.py:79-97 | The assumptions on the parsers of times and numbers can be met. |
| `Envelope.DecodedIsNormal` | src/task_queue/validation.py:42-110 | Whatever decodes, with any parsers, is valid and in normal form, so it can be encoded again and is its own round trip. |
| `Envelope.TimeTextReads` | src/task_queue/validation.py:121-129 | The text of a valid time reads back to the same instant if and only if its year has four digits. |
| `Envelope.TimeTextMeans` | src/task_queue/serializer.py:51 | The written text of a time, position by position. |
| `Envelope.UtcMeans` | src/task_queue/serializer.py:45 | The move to UTC keeps the instant, and fails exactly for a naive time or one that leaves the calendar. |
| `Envelope.CarriedMeans` | src/task_queue/serializer.py:55-61 | Exactly the two known trace entries travel, unless empty, unchanged. |
| `Envelope.UnpaddedYearIsLost` | src/task_queue/serializer.py:51 | Where %Y does not pad, every valid message created at the first instant of year 1 is encoded and then read back as malformed. |
| `Calendar.CalendarRoundTrip` | src/task_queue/serializer.py:45-51 | Every representable time has a valid calendar reading that counts back to it. |
| `Calendar.CountRoundTrip` | src/task_queue/validation.py:121-129 | Every valid calendar reading is the reading of the time it counts to. |
| `Calendar.MonthsAreUsual` | src/task_queue/serializer.py:51 | The twelve month lengths. |
| `Calendar.YearsCountUp` | src/task_queue/serializer.py:51 | The days before a year, in closed form by the leap year rule. |
| `Calendar.WallMeans` | src/task_queue/serializer.py:51 | The time of day counts in hours, minutes, seconds and microseconds. |
| `Text.StripCuts` | src/task_queue/validation.py:112-119 | Stripping cuts blanks off both ends and nothing else. |

## Left out

- PostgreSQL and Redis drivers, pools, SQL and stream commands: the repository protocols and an abstract stream with pending entries stand for them.
- Stage handlers, agents, LLM providers and collector HTTP: a handler is an arbitrary outcome plus the version of the artifact it stores.
- The renewal timer, sleeping and threads: a lease may expire at any step, or only after its holder under the premise.
- `schedule_backoff` and `should_defer`: whether a delivery is deferred is an arbitrary choice in every state that allows it.
- The concurrency pool, in-flight counters, telemetry, failure-injection hooks and test seams of the worker loop.
- `_process_delivery` as one sequential method: its statements are the steps of `Protocol`, so that they can interleave with everything else.
- A delivery whose task or workflow row is missing: rows are never deleted, so it does not arise in a run.
- Failure reasons, actors and time stamps of rows; task ids are positions, and the latest task is the one created last.
- Several workflows in one `Protocol` store: keys of different workflows differ (`LogicalKeys.KeyTextIsInjective`), so one workflow is modelled at a time; `Reconcile` has many.
- Per-state overrides of the stuck thresholds: the default thresholds are modelled.
- Reading candidates over several queries: `Reconcile.CollectCandidates` reads one snapshot; the repair pass re-reads, with anything happening between turns.
- The payload is readable in `Protocol`; what an unreadable one does to the key is in `LogicalKeys`.
- `Engine.Task.failures`, `Engine.Claim.link` and `Engine.Link.cause` are records the original does not keep as columns; no modelled operation branches on them.
- Python's fromisoformat and int: they are parameters of `Envelope.Decode`, known only on the layout and the numerals that encoding writes and for wanting a year of four digits; the decoding of bytes is left out.
- `Envelope.Name` stands for the literal field names, which are distinct strings.
- `Collector.Sort`: an insertion sort stands for Python's sorted; scores and weights are reals, not floats.
- URL canonicalisation, secret patterns, templates, JSON schemas, configuration mapping, API routes and status views: they would only add easy members.
