/** Safety of every run of the protocol, with no assumption about leases: the
    database stays sound, nothing is acknowledged before it is durable, attempts
    stay within the retry policy, and completion records are never revised. */
module ProtocolSafety {
  import opened WorkflowTypes
  import opened TransitionTable
  import opened Engine
  import opened History
  import opened Reconcile
  import opened Ledger
  import opened Protocol
  import Worker

  /** Why an entry of task t may be acknowledged by a worker that looked at the
      workflow at row version `seen`: its key is completed, the workflow is over,
      or at that version the workflow was not in the task's execution state. */
  ghost predicate Durably(db: Durable, t: nat, seen: nat)
    requires t < |db.tasks|
  {
    || KeyOf(db.tasks[t]) in db.claims
    || Terminal(db.row.state)
    || StateAt(db.history, seen) != ExpectedState(db.tasks[t].kind)
  }

  ghost predicate EntryOk(cfg: Config, db: Durable, e: Entry) {
    && e.row < |db.outbox| && e.task < |db.tasks|
    && db.outbox[e.row].task == e.task
    && 1 <= e.attempt <= cfg.attempts(db.tasks[e.task].kind)
    && (e.acked.Some? ==> e.acked.value <= db.row.version && Durably(db, e.task, e.acked.value))
  }

  /** Phases after a stale check that let the delivery through. */
  predicate PassedCheck(p: Phase) {
    !p.Loaded? && !p.Skipping? && !p.Ended?
  }

  ghost predicate ExecOk(cfg: Config, db: Durable, queue: seq<Entry>, e: Exec) {
    && e.entry < |queue| && queue[e.entry].task < |db.tasks|
    && var t := queue[e.entry].task;
       && 1 <= e.attempt <= cfg.attempts(db.tasks[t].kind)
       && e.seen <= db.row.version
       && (e.phase.Duplicate? || e.phase.Committed? || e.phase.Released? ==> KeyOf(db.tasks[t]) in db.claims)
       && (e.phase.DeadEnd? ==> Terminal(db.row.state))
       && (e.phase.Skipping? ==> StateAt(db.history, e.seen) != ExpectedState(db.tasks[t].kind))
       && (PassedCheck(e.phase) ==> StateAt(db.history, e.seen) == ExpectedState(db.tasks[t].kind))
  }

  ghost predicate PublishedAfterEnqueue(s: Store) {
    forall o :: 0 <= o < |s.db.outbox| && s.db.outbox[o].published ==>
      exists i :: 0 <= i < |s.queue| && s.queue[i].row == o
  }

  /** The part of safety that is about messages, deliveries and leases. */
  ghost predicate Traffic(cfg: Config, s: Store) {
    && PublishedAfterEnqueue(s)
    && (forall i :: 0 <= i < |s.queue| ==> EntryOk(cfg, s.db, s.queue[i]))
    && (forall x :: 0 <= x < |s.execs| ==> ExecOk(cfg, s.db, s.queue, s.execs[x]))
    && (forall t :: t in s.leases ==> InRange(s, s.leases[t]) && TaskOf(s, s.leases[t]) == t)
  }

  ghost predicate Safe(cfg: Config, s: Store) {
    Sound(cfg, s.db) && Stored(cfg.handlers, s.db) && Traffic(cfg, s)
  }

  /** The part of growth that entries and deliveries depend on. */
  ghost predicate Keeps(a: Durable, b: Durable) {
    && a.history <= b.history
    && a.row.version == |a.history| + 1 && b.row.version == |b.history| + 1
    && |a.tasks| <= |b.tasks|
    && (forall t :: 0 <= t < |a.tasks| ==> KeyOf(b.tasks[t]) == KeyOf(a.tasks[t]))
    && |a.outbox| <= |b.outbox|
    && (forall o :: 0 <= o < |a.outbox| ==> b.outbox[o].task == a.outbox[o].task)
    && (forall k :: k in a.claims ==> k in b.claims)
    && (Terminal(a.row.state) ==> Terminal(b.row.state))
  }

  lemma EntryFrame(cfg: Config, a: Durable, b: Durable, e: Entry)
    requires Keeps(a, b) && EntryOk(cfg, a, e)
    ensures EntryOk(cfg, b, e)
  {
    assert KeyOf(b.tasks[e.task]) == KeyOf(a.tasks[e.task]);
  }

  lemma ExecFrame(cfg: Config, a: Durable, b: Durable, queue: seq<Entry>, e: Exec)
    requires Keeps(a, b) && ExecOk(cfg, a, queue, e)
    ensures ExecOk(cfg, b, queue, e)
  {
    assert KeyOf(b.tasks[queue[e.entry].task]) == KeyOf(a.tasks[queue[e.entry].task]);
  }

  predicate Writes(ev: Event) {
    ev.MarkPublished? || ev.Commit? || ev.HandleFailure? || ev.HumanAction? || ev.RepairCandidate?
  }

  lemma QuietStep(cfg: Config, s: Store, ev: Event)
    requires Enabled(s, ev) && !Writes(ev)
    ensures Next(cfg, s, ev).db == s.db
  {
  }

  /** A failure transaction that, if it commits, fails the workflow soundly. */
  ghost predicate FailsSoundly(cfg: Config, db: Durable, r: Outcome) {
    r.Done? ==>
      && Sound(cfg, r.db) && Grows(db, r.db) && Terminal(r.db.row.state)
      && r.db.claims == db.claims && r.db.artifacts == db.artifacts
  }

  lemma {:induction false} FailureIsSound(cfg: Config, db: Durable, t: nat, exhausted: bool) returns (r: Outcome)
    requires ValidConfig(cfg) && Sound(cfg, db) && t < |db.tasks|
    ensures r == Worker.FailTask(cfg.maxRevisions, db, t, exhausted)
    ensures FailsSoundly(cfg, db, r)
  {
    FailKeepsSound(cfg, db, t, exhausted);
    r := Worker.FailTask(cfg.maxRevisions, db, t, exhausted);
  }

  lemma {:induction false} FailureWrites(cfg: Config, s: Store, x: nat)
    requires ValidConfig(cfg) && Safe(cfg, s) && Enabled(s, HandleFailure(x))
    ensures Sound(cfg, FailureStep(cfg, s, x).db) && Grows(s.db, FailureStep(cfg, s, x).db)
    ensures Stored(cfg.handlers, FailureStep(cfg, s, x).db)
  {
    var t := TaskOf(s, x);
    assert ExecOk(cfg, s.db, s.queue, s.execs[x]);
    if Retries(cfg, s, x) {
      RetryKeepsSound(cfg, s.db, t, s.execs[x].attempt);
    } else {
      var r := FailureIsSound(cfg, s.db, t, Exhausted(cfg, s, x) && !s.execs[x].phase.fault.NoHandlerFault?);
      assert FailureStep(cfg, s, x) == FailedWith(s, x, r);
    }
  }

  /** What a step does to the database. */
  lemma {:induction false} DatabaseStep(cfg: Config, s: Store, ev: Event)
    requires ValidConfig(cfg) && Safe(cfg, s) && Enabled(s, ev) && !ev.MarkPublished?
    ensures Sound(cfg, Next(cfg, s, ev).db) && Stored(cfg.handlers, Next(cfg, s, ev).db)
    ensures Grows(s.db, Next(cfg, s, ev).db)
    ensures Keeps(s.db, Next(cfg, s, ev).db)
  {
    if !Writes(ev) {
      QuietStep(cfg, s, ev);
    } else {
      WritingStep(cfg, s, ev);
    }
    DatabaseKeeps(cfg, s.db, Next(cfg, s, ev).db);
  }

  lemma {:induction false} WritingStep(cfg: Config, s: Store, ev: Event)
    requires ValidConfig(cfg) && Safe(cfg, s) && Enabled(s, ev) && !ev.MarkPublished? && Writes(ev)
    ensures Sound(cfg, Next(cfg, s, ev).db) && Stored(cfg.handlers, Next(cfg, s, ev).db)
    ensures Grows(s.db, Next(cfg, s, ev).db)
  {
    match ev
    case Commit(x, signal) =>
      CommitKeepsSound(cfg, s.db, TaskOf(s, x), signal);
      CommitKeepsStored(cfg, s.db, TaskOf(s, x), signal);
    case HandleFailure(x) => FailureWrites(cfg, s, x);
    case HumanAction(action) => ApprovalKeepsSound(cfg, s.db, action);
    case RepairCandidate(n, elapsed) =>
      RepairKeepsSound(cfg, s.db, s.scanned[n], elapsed);
      RepairClaimsNothing(cfg, s.db, s.scanned[n], elapsed);
  }

  lemma {:induction false} DatabaseKeeps(cfg: Config, a: Durable, b: Durable)
    requires Sound(cfg, a) && Sound(cfg, b) && Grows(a, b)
    ensures Keeps(a, b)
  {
    FaithfulIsChain(cfg.maxRevisions, a.history, a.row);
    FaithfulIsChain(cfg.maxRevisions, b.history, b.row);
  }

  /** Entries, deliveries and leases survive any change of the database alone. */
  lemma FrameDatabase(cfg: Config, s: Store, db: Durable)
    requires Traffic(cfg, s) && Keeps(s.db, db)
    requires s.db.outbox <= db.outbox
    requires forall o :: |s.db.outbox| <= o < |db.outbox| ==> !db.outbox[o].published
    ensures Traffic(cfg, s.(db := db))
  {
    forall i | 0 <= i < |s.queue| ensures EntryOk(cfg, db, s.queue[i]) {
      EntryFrame(cfg, s.db, db, s.queue[i]);
    }
    forall x | 0 <= x < |s.execs| ensures ExecOk(cfg, db, s.queue, s.execs[x]) {
      ExecFrame(cfg, s.db, db, s.queue, s.execs[x]);
    }
  }

  lemma {:induction false} PublishKeepsSafe(cfg: Config, s: Store, o: nat)
    requires Safe(cfg, s) && Enabled(s, MarkPublished(o))
    ensures Safe(cfg, Next(cfg, s, MarkPublished(o)))
  {
    FaithfulIsChain(cfg.maxRevisions, s.db.history, s.db.row);
    PublishKeepsSound(cfg, s.db, o);
    FramePublished(cfg, s, o);
  }

  lemma {:induction false} FramePublished(cfg: Config, s: Store, o: nat)
    requires Traffic(cfg, s) && Enabled(s, MarkPublished(o)) && s.db.row.version == |s.db.history| + 1
    ensures Traffic(cfg, Next(cfg, s, MarkPublished(o)))
  {
    var db := Next(cfg, s, MarkPublished(o)).db;
    forall i | 0 <= i < |s.queue| ensures EntryOk(cfg, db, s.queue[i]) {
      EntryFrame(cfg, s.db, db, s.queue[i]);
    }
    forall x | 0 <= x < |s.execs| ensures ExecOk(cfg, db, s.queue, s.execs[x]) {
      ExecFrame(cfg, s.db, db, s.queue, s.execs[x]);
    }
  }

  /** Moving one delivery to a phase it is entitled to. */
  lemma FramePhase(cfg: Config, s: Store, x: nat, e: Exec, leases: map<nat, nat>)
    requires Traffic(cfg, s) && x < |s.execs|
    requires e.entry == s.execs[x].entry && ExecOk(cfg, s.db, s.queue, e)
    requires forall t :: t in leases ==>
      (t in s.leases && leases[t] == s.leases[t]) || (t == TaskOf(s, x) && leases[t] == x)
    ensures Traffic(cfg, s.(execs := s.execs[x := e], leases := leases))
  {
    var s' := s.(execs := s.execs[x := e], leases := leases);
    forall y | 0 <= y < |s'.execs| ensures ExecOk(cfg, s'.db, s'.queue, s'.execs[y]) {
      assert ExecOk(cfg, s.db, s.queue, s.execs[y]);
    }
  }

  /** Acknowledging an entry for a durable reason. */
  lemma FrameAck(cfg: Config, s: Store, i: nat, seen: nat)
    requires Traffic(cfg, s) && i < |s.queue|
    requires seen <= s.db.row.version && Durably(s.db, s.queue[i].task, seen)
    ensures Traffic(cfg, s.(queue := s.queue[i := s.queue[i].(acked := Some(seen))]))
  {
    var s' := s.(queue := s.queue[i := s.queue[i].(acked := Some(seen))]);
    forall y | 0 <= y < |s'.execs| ensures ExecOk(cfg, s'.db, s'.queue, s'.execs[y]) {
      assert ExecOk(cfg, s.db, s.queue, s.execs[y]);
    }
    forall j | 0 <= j < |s'.queue| ensures EntryOk(cfg, s'.db, s'.queue[j]) {
      assert EntryOk(cfg, s.db, s.queue[j]);
    }
    forall o | 0 <= o < |s'.db.outbox| && s'.db.outbox[o].published
      ensures exists j :: 0 <= j < |s'.queue| && s'.queue[j].row == o
    {
      var j :| 0 <= j < |s.queue| && s.queue[j].row == o;
      assert s'.queue[j].row == o;
    }
  }

  lemma FrameEnqueue(cfg: Config, s: Store, o: nat)
    requires Traffic(cfg, s) && AttemptsBounded(cfg, s.db) && Enabled(s, Enqueue(o))
    ensures Traffic(cfg, Next(cfg, s, Enqueue(o)))
  {
    var s' := Next(cfg, s, Enqueue(o));
    forall x | 0 <= x < |s.execs| ensures ExecOk(cfg, s'.db, s'.queue, s'.execs[x]) {
      assert ExecOk(cfg, s.db, s.queue, s.execs[x]);
    }
    forall p | 0 <= p < |s'.db.outbox| && s'.db.outbox[p].published
      ensures exists j :: 0 <= j < |s'.queue| && s'.queue[j].row == p
    {
      var j :| 0 <= j < |s.queue| && s.queue[j].row == p;
      assert s'.queue[j].row == p;
    }
  }

  lemma FrameReceive(cfg: Config, s: Store, i: nat)
    requires Traffic(cfg, s) && AttemptsBounded(cfg, s.db) && Enabled(s, Receive(i))
    ensures Traffic(cfg, Next(cfg, s, Receive(i)))
  {
    var s' := Next(cfg, s, Receive(i));
    assert EntryOk(cfg, s.db, s.queue[i]);
    forall x | 0 <= x < |s'.execs| ensures ExecOk(cfg, s'.db, s'.queue, s'.execs[x]) {
      if x < |s.execs| {
        assert ExecOk(cfg, s.db, s.queue, s.execs[x]);
      }
    }
  }

  /** Steps that only move one delivery, and perhaps its lease. */
  predicate MovesOnly(ev: Event) {
    ev.Defer? || ev.Acquire? || ev.PreCheck? || ev.Raise? || ev.Release? || ev.Crash?
  }

  lemma MoveKeepsSafe(cfg: Config, s: Store, ev: Event)
    requires Traffic(cfg, s) && Enabled(s, ev) && MovesOnly(ev)
    ensures Traffic(cfg, Next(cfg, s, ev))
  {
    var s' := Next(cfg, s, ev);
    assert ExecOk(cfg, s.db, s.queue, s.execs[ev.x]);
    FramePhase(cfg, s, ev.x, s'.execs[ev.x], s'.leases);
  }

  lemma {:induction false} ClassifyKeepsSafe(cfg: Config, s: Store, x: nat)
    requires Safe(cfg, s) && Enabled(s, Classify(x))
    ensures Safe(cfg, Next(cfg, s, Classify(x)))
  {
    assert ExecOk(cfg, s.db, s.queue, s.execs[x]);
    StateAtCurrentVersion(cfg.maxRevisions, s.db);
    FramePhase(cfg, s, x, Next(cfg, s, Classify(x)).execs[x], s.leases);
  }

  lemma AckKeepsSafe(cfg: Config, s: Store, x: nat)
    requires Traffic(cfg, s) && Enabled(s, Ack(x))
    ensures Traffic(cfg, Next(cfg, s, Ack(x)))
  {
    var s' := AckStep(s, x);
    var i := s.execs[x].entry;
    assert ExecOk(cfg, s.db, s.queue, s.execs[x]);
    FramePhase(cfg, s, x, s'.execs[x], s'.leases);
    if s.queue[i].acked.None? {
      FrameAck(cfg, Finish(s, x), i, s.execs[x].seen);
    }
  }

  /** Every step of every run keeps the protocol safe. */
  lemma {:induction false} StepKeepsSafe(cfg: Config, s: Store, ev: Event)
    requires ValidConfig(cfg) && Safe(cfg, s) && Enabled(s, ev)
    ensures Safe(cfg, Next(cfg, s, ev))
  {
    if !Writes(ev) {
      QuietStep(cfg, s, ev);
      QuietKeepsTraffic(cfg, s, ev);
    } else {
      match ev
      case MarkPublished(o) => PublishKeepsSafe(cfg, s, o);
      case Commit(x, _) => CommitStepKeepsSafe(cfg, s, ev);
      case HandleFailure(x) => FailureStepKeepsSafe(cfg, s, x);
      case _ => OutsideWriteKeepsSafe(cfg, s, ev);
    }
  }

  lemma {:induction false} OutsideWriteKeepsSafe(cfg: Config, s: Store, ev: Event)
    requires ValidConfig(cfg) && Safe(cfg, s) && Enabled(s, ev) && (ev.HumanAction? || ev.RepairCandidate?)
    ensures Safe(cfg, Next(cfg, s, ev))
  {
    DatabaseStep(cfg, s, ev);
    FrameDatabase(cfg, s, Next(cfg, s, ev).db);
    assert Next(cfg, s, ev) == s.(db := Next(cfg, s, ev).db);
  }

  lemma {:induction false} QuietKeepsTraffic(cfg: Config, s: Store, ev: Event)
    requires Safe(cfg, s) && Enabled(s, ev) && !Writes(ev)
    ensures Traffic(cfg, Next(cfg, s, ev))
  {
    if MovesOnly(ev) {
      MoveKeepsSafe(cfg, s, ev);
    } else {
      match ev
      case Enqueue(o) => FrameEnqueue(cfg, s, o);
      case Receive(i) => FrameReceive(cfg, s, i);
      case Classify(x) => ClassifyKeepsSafe(cfg, s, x);
      case Ack(x) => AckKeepsSafe(cfg, s, x);
      case ExpireLease(t) =>
      case CollectCandidate(_, _) =>
    }
  }

  lemma {:induction false} CommitStepKeepsSafe(cfg: Config, s: Store, ev: Event)
    requires ValidConfig(cfg) && Safe(cfg, s) && Enabled(s, ev) && ev.Commit?
    ensures Safe(cfg, Next(cfg, s, ev))
  {
    DatabaseStep(cfg, s, ev);
    var s' := Next(cfg, s, ev);
    CommitKeepsSound(cfg, s.db, TaskOf(s, ev.x), ev.signal);
    FrameDatabase(cfg, s, s'.db);
    assert ExecOk(cfg, s'.db, s.queue, s.execs[ev.x]);
    FramePhase(cfg, s.(db := s'.db), ev.x, s'.execs[ev.x], s.leases);
  }

  lemma {:induction false} FailedKeepsSafe(cfg: Config, s: Store, x: nat, r: Outcome)
    requires Safe(cfg, s) && Enabled(s, HandleFailure(x)) && FailsSoundly(cfg, s.db, r)
    ensures Safe(cfg, FailedWith(s, x, r))
  {
    var s' := FailedWith(s, x, r);
    if r.Done? {
      DatabaseKeeps(cfg, s.db, r.db);
      FrameDatabase(cfg, s, r.db);
    }
    var mid := s.(db := s'.db);
    assert ExecOk(cfg, mid.db, mid.queue, mid.execs[x]);
    FramePhase(cfg, mid, x, s'.execs[x], s'.leases);
  }

  lemma {:induction false} FailureStepKeepsSafe(cfg: Config, s: Store, x: nat)
    requires ValidConfig(cfg) && Safe(cfg, s) && Enabled(s, HandleFailure(x))
    ensures Safe(cfg, FailureStep(cfg, s, x))
  {
    var t := TaskOf(s, x);
    assert ExecOk(cfg, s.db, s.queue, s.execs[x]);
    if Retries(cfg, s, x) {
      var db := Worker.RetryTask(s.db, t, s.execs[x].attempt);
      RetryKeepsSound(cfg, s.db, t, s.execs[x].attempt);
      DatabaseKeeps(cfg, s.db, db);
      FrameDatabase(cfg, s, db);
      var s' := Finish(s, x).(db := db);
      FramePhase(cfg, s.(db := db), x, s'.execs[x], s'.leases);
    } else {
      var r := FailureIsSound(cfg, s.db, t, Exhausted(cfg, s, x) && !s.execs[x].phase.fault.NoHandlerFault?);
      FailedKeepsSafe(cfg, s, x, r);
    }
  }

  lemma InitIsSafe(cfg: Config)
    requires ValidConfig(cfg)
    ensures Safe(cfg, Init())
  {
    InitiateIsSound(cfg);
    NothingStored(cfg.handlers, Init().db);
    NothingSent(cfg, Init());
  }

  lemma NothingStored(handlers: Handlers, db: Durable)
    requires db.claims == map[] && db.artifacts == {}
    ensures Stored(handlers, db)
  {
  }

  lemma NothingSent(cfg: Config, s: Store)
    requires s.queue == [] && s.execs == [] && s.leases == map[]
    requires forall o :: 0 <= o < |s.db.outbox| ==> !s.db.outbox[o].published
    ensures Traffic(cfg, s)
  {
  }

  /** In every state of every run. */
  lemma {:induction false} RunsAreSafe(cfg: Config, states: seq<Store>, events: seq<Event>, i: nat)
    requires Run(cfg, states, events) && i < |states|
    ensures Safe(cfg, states[i])
  {
    if i == 0 {
      InitIsSafe(cfg);
    } else {
      RunsAreSafe(cfg, states, events, i - 1);
      StepKeepsSafe(cfg, states[i - 1], events[i - 1]);
      assert states[i - 1 + 1] == Next(cfg, states[i - 1], events[i - 1]);
    }
  }

  // --- What safety says ---

  lemma {:induction false} StepKeepsClaims(cfg: Config, s: Store, ev: Event, k: Key)
    requires ValidConfig(cfg) && Safe(cfg, s) && Enabled(s, ev) && k in s.db.claims
    ensures k in Next(cfg, s, ev).db.claims && Next(cfg, s, ev).db.claims[k] == s.db.claims[k]
  {
    if !ev.MarkPublished? {
      DatabaseStep(cfg, s, ev);
    }
  }

  /** Effectively-once completion: a completion record, once committed, is never
      changed or taken back, so each key is claimed by at most one delivery. */
  lemma {:induction false} ClaimsAreForever(cfg: Config, states: seq<Store>, events: seq<Event>, i: nat, j: nat, k: Key)
    requires Run(cfg, states, events) && i <= j < |states|
    requires k in states[i].db.claims
    ensures k in states[j].db.claims && states[j].db.claims[k] == states[i].db.claims[k]
    decreases j
  {
    if i < j {
      ClaimsAreForever(cfg, states, events, i, j - 1, k);
      RunsAreSafe(cfg, states, events, j - 1);
      StepKeepsClaims(cfg, states[j - 1], events[j - 1], k);
      assert states[j - 1 + 1] == Next(cfg, states[j - 1], events[j - 1]);
    }
  }

  lemma {:induction false} FailureClaimsNothing(cfg: Config, s: Store, x: nat)
    requires ValidConfig(cfg) && Safe(cfg, s) && Enabled(s, HandleFailure(x))
    ensures FailureStep(cfg, s, x).db.claims == s.db.claims
  {
    if !Retries(cfg, s, x) {
      var r := FailureIsSound(cfg, s.db, TaskOf(s, x), Exhausted(cfg, s, x) && !s.execs[x].phase.fault.NoHandlerFault?);
      assert FailureStep(cfg, s, x) == FailedWith(s, x, r);
    }
  }

  lemma {:induction false} OnlyCommitsClaim(cfg: Config, s: Store, ev: Event)
    requires ValidConfig(cfg) && Safe(cfg, s) && Enabled(s, ev) && !ev.Commit?
    ensures Next(cfg, s, ev).db.claims == s.db.claims
  {
    if ev.HandleFailure? {
      FailureClaimsNothing(cfg, s, ev.x);
    } else if !Writes(ev) {
      QuietStep(cfg, s, ev);
    } else {
      DecisionsAndRepairsClaimNothing(cfg, s, ev);
    }
  }

  lemma {:induction false} DecisionsAndRepairsClaimNothing(cfg: Config, s: Store, ev: Event)
    requires Enabled(s, ev) && (ev.RepairCandidate? || ev.HumanAction? || ev.MarkPublished?)
    ensures Next(cfg, s, ev).db.claims == s.db.claims
  {
    if ev.RepairCandidate? {
      RepairClaimsNothing(cfg, s.db, s.scanned[ev.n], ev.elapsed);
    }
  }

  /** A new completion record appears only when a delivery commits, together with
      the one transition that leaves the execution state of its task. */
  lemma {:induction false} ClaimsComeFromCommits(cfg: Config, s: Store, ev: Event, k: Key)
    requires ValidConfig(cfg) && Safe(cfg, s) && Enabled(s, ev)
    requires k !in s.db.claims && k in Next(cfg, s, ev).db.claims
    ensures ev.Commit? && k == ExecKey(s, ev.x)
    ensures
      var db := Next(cfg, s, ev).db;
      && db.claims == s.db.claims[k := Claim(TaskOf(s, ev.x), |s.db.history|)]
      && s.db.history < db.history
      && db.history[|s.db.history|].from == ExpectedState(k.kind)
      && forall i :: |s.db.history| < i < |db.history| ==> !Executing(db.history[i].from)
  {
    if !ev.Commit? {
      OnlyCommitsClaim(cfg, s, ev);
    } else if ExecKey(s, ev.x) in s.db.claims {
      LoserStoresNothing(cfg, s.db, TaskOf(s, ev.x), ev.signal);
    } else {
      ClaimComesWithItsTransition(cfg.handlers, cfg.maxRevisions, s.db, TaskOf(s, ev.x), ev.signal);
    }
  }

  lemma RepairClaimsNothing(cfg: Config, db: Durable, c: Candidate, elapsed: real)
    ensures
      var r := RepairOne(cfg, db, c, elapsed);
      r.Repaired? ==> r.db.claims == db.claims && r.db.artifacts == db.artifacts
  {
    SignalAppends(cfg.maxRevisions, db, db.row.state, ReconciliationRepair);
  }

  /** A delivery of COLLECT or SELECT_TOPIC whose key is claimed leaves the queue and
      the database as they are, whatever its handler returned and even if its lease
      had run out, when it commits and when its failure is handled; only a failure
      that is retried writes, and that only its own task. */
  lemma CollectAndSelectLosersChangeNothing(cfg: Config, s: Store, x: nat, ev: Event)
    requires ValidConfig(cfg) && Safe(cfg, s) && Enabled(s, ev) && InRange(s, x)
    requires (ev.Commit? && ev.x == x) || ev == HandleFailure(x)
    requires KindOf(s, x).Collect? || KindOf(s, x).SelectTopic?
    requires ExecKey(s, x) in s.db.claims
    ensures Next(cfg, s, ev).queue == s.queue
    ensures
      var db, t := Next(cfg, s, ev).db, TaskOf(s, x);
      if ev.HandleFailure? && Retries(cfg, s, x) then db == s.db.(tasks := s.db.tasks[t := db.tasks[t]])
      else db == s.db
  {
    match ev
    case Commit(_, signal) =>
      CollectAndSelectLosersAreHarmless(cfg, s.db, TaskOf(s, x), signal, false);
    case HandleFailure(_) =>
      CollectAndSelectLosersAreHarmless(cfg, s.db, TaskOf(s, x), StageCompleted,
                                        Exhausted(cfg, s, x) && !s.execs[x].phase.fault.NoHandlerFault?);
  }

  /** Only the ack step acknowledges: retries, lease conflicts, deferrals, commits
      and crashes leave every entry pending. */
  lemma OnlyAckAcknowledges(cfg: Config, s: Store, ev: Event, e: nat)
    requires Enabled(s, ev) && e < |s.queue|
    requires !(ev.Ack? && s.execs[ev.x].entry == e)
    ensures e < |Next(cfg, s, ev).queue| && Next(cfg, s, ev).queue[e] == s.queue[e]
  {
  }

  /** A permanent failure marks the task and fails the workflow in the same step. */
  lemma {:induction false} DeadEndIsMarked(cfg: Config, s: Store, x: nat)
    requires ValidConfig(cfg) && Safe(cfg, s) && Enabled(s, HandleFailure(x)) && !Retries(cfg, s, x)
    ensures
      var s' := FailureStep(cfg, s, x);
      var exhausted := Exhausted(cfg, s, x) && !s.execs[x].phase.fault.NoHandlerFault?;
      if s.db.row.state == ExpectedState(KindOf(s, x)) then
        && s'.execs[x].phase.DeadEnd?
        && s'.db.row.state == (if exhausted then FailedPermanently else Failed)
        && s'.db.tasks[TaskOf(s, x)].status == (if exhausted then DeadLetter else TaskFailed)
      else
        s'.execs[x].phase.Ended? && s'.db == s.db
  {
    var exhausted := Exhausted(cfg, s, x) && !s.execs[x].phase.fault.NoHandlerFault?;
    if s.db.row.state == ExpectedState(KindOf(s, x)) {
      FailureApplies(cfg.maxRevisions, s.db, KindOf(s, x), exhausted);
    }
  }

  /** The worker's decision on a failure, in attempt numbers. A retryable error below
      the policy's limit puts the task back to DISPATCHED with the next attempt and
      leaves the workflow alone; any other error fails workflow and task together if
      the workflow is in the task's state, permanently when the attempts are used up,
      and changes nothing otherwise. */
  lemma {:induction false} FailureDecision(cfg: Config, s: Store, x: nat)
    requires ValidConfig(cfg) && Safe(cfg, s) && Enabled(s, HandleFailure(x))
    ensures
      var t, fault := TaskOf(s, x), s.execs[x].phase.fault;
      var task, attempt, limit := s.db.tasks[t], s.execs[x].attempt, cfg.attempts(KindOf(s, x));
      var s' := Next(cfg, s, HandleFailure(x));
      if fault.RetryableFault? && attempt < limit then
        && s'.execs[x].phase.Ended?
        && s'.db == s.db.(tasks := s.db.tasks[t := Task(task.kind, task.logical, attempt + 1, Dispatched,
                                                        task.failures + 1)])
      else if s.db.row.state != ExpectedState(task.kind) then
        s'.execs[x].phase.Ended? && s'.db == s.db
      else
        var permanent := attempt >= limit && !fault.NoHandlerFault?;
        && s'.execs[x].phase.DeadEnd?
        && s'.db.row.state == (if permanent then FailedPermanently else Failed)
        && |s'.db.tasks| == |s.db.tasks|
        && s'.db.tasks[t].status == (if permanent then DeadLetter else TaskFailed)
  {
    if !Retries(cfg, s, x) {
      DeadEndIsMarked(cfg, s, x);
      FailKeepsSound(cfg, s.db, TaskOf(s, x), Exhausted(cfg, s, x) && !s.execs[x].phase.fault.NoHandlerFault?);
    }
  }

  /** In every run a retryable error moves the workflow only from the last attempt that
      the policy allows, and then it is a permanent failure with a dead letter. */
  lemma {:induction false} RetryableErrorsUseAllAttempts(
    cfg: Config, states: seq<Store>, events: seq<Event>, i: nat, x: nat)
    requires Run(cfg, states, events) && i < |events| && events[i] == HandleFailure(x)
    requires InRange(states[i], x) && states[i].execs[x].phase == Caught(RetryableFault)
    requires states[i + 1].db.row != states[i].db.row
    ensures states[i].execs[x].attempt == cfg.attempts(KindOf(states[i], x))
    ensures states[i + 1].db.row.state.FailedPermanently?
    ensures TaskOf(states[i], x) < |states[i + 1].db.tasks|
    ensures states[i + 1].db.tasks[TaskOf(states[i], x)].status.DeadLetter?
  {
    RunsAreSafe(cfg, states, events, i);
    assert ExecOk(cfg, states[i].db, states[i].queue, states[i].execs[x]);
    FailureDecision(cfg, states[i], x);
  }

  /** What the publisher and the receiver pass on: a new entry carries its row's task
      with its current attempt, and a delivery starts with the later of the message's
      and the task's attempt. */
  lemma MessagesCarryAttempts(cfg: Config, s: Store, ev: Event)
    requires Enabled(s, ev) && (ev.Enqueue? || ev.Receive?)
    ensures
      var s' := Next(cfg, s, ev);
      && s'.db == s.db
      && (ev.Enqueue? ==>
            var t := s.db.outbox[ev.row].task;
            s'.execs == s.execs && s'.queue == s.queue + [Entry(ev.row, t, s.db.tasks[t].attempt, None)])
      && (ev.Receive? ==>
            && s'.queue == s.queue && |s'.execs| == |s.execs| + 1 && s.execs <= s'.execs
            && var e, entry := s'.execs[|s.execs|], s.queue[ev.entry];
               && e.entry == ev.entry && e.phase.Loaded?
               && e.attempt >= entry.attempt && e.attempt >= s.db.tasks[entry.task].attempt
               && (e.attempt == entry.attempt || e.attempt == s.db.tasks[entry.task].attempt))
  {
  }

  /** The checks before execution: a task outside its state is skipped, a task with a
      lease is left alone, and a claimed key is a duplicate. */
  lemma ChecksBeforeExecution(cfg: Config, s: Store, ev: Event)
    requires Enabled(s, ev) && (ev.Classify? || ev.Acquire? || ev.PreCheck?)
    ensures
      var s', t := Next(cfg, s, ev), TaskOf(s, ev.x);
      var phase := s'.execs[ev.x].phase;
      && s'.db == s.db && s'.queue == s.queue
      && (ev.Classify? ==>
            && s'.leases == s.leases && s'.execs[ev.x].seen == s.db.row.version
            && phase == if s.db.row.state == ExpectedState(KindOf(s, ev.x)) then Proceeding else Skipping)
      && (ev.Acquire? ==>
            if t in s.leases then phase.Ended? && s'.leases == s.leases
            else phase.Leased? && s'.leases == s.leases[t := ev.x])
      && (ev.PreCheck? ==>
            s'.leases == s.leases && phase == if ExecKey(s, ev.x) in s.db.claims then Duplicate else Running)
  {
  }

  /** A delivery that has released, or has returned, no longer holds its lease, and the
      leases of other deliveries stay. */
  lemma LeasesAreGivenBack(cfg: Config, s: Store, ev: Event)
    requires Enabled(s, ev) && (ev.Release? || ev.Ack? || ev.HandleFailure?)
    requires Next(cfg, s, ev).execs[ev.x].phase.Released? || Next(cfg, s, ev).execs[ev.x].phase.Ended?
    ensures
      var s', t := Next(cfg, s, ev), TaskOf(s, ev.x);
      && (t in s'.leases ==> s'.leases[t] != ev.x)
      && (forall u :: u in s.leases && s.leases[u] != ev.x ==> u in s'.leases && s'.leases[u] == s.leases[u])
      && (forall u :: u in s'.leases ==> u in s.leases)
  {
    FreeLeaseMeans(s, ev.x);
  }

  lemma FreeLeaseMeans(s: Store, x: nat)
    requires InRange(s, x)
    ensures
      var leases := FreeLease(s, x).leases;
      && (TaskOf(s, x) in leases ==> leases[TaskOf(s, x)] != x)
      && (forall u :: u in s.leases && s.leases[u] != x ==> u in leases && leases[u] == s.leases[u])
      && (forall u :: u in leases ==> u in s.leases)
  {
  }

  /** No delivery is ever stuck: in a safe state one that is not over has its next step,
      whatever its handler returns or raises, and it can crash. */
  lemma NoDeliveryIsStuck(cfg: Config, s: Store, x: nat, signal: Signal, fault: Fault)
    requires Safe(cfg, s) && x < |s.execs| && !s.execs[x].phase.Ended?
    ensures Enabled(s, Crash(x))
    ensures
      match s.execs[x].phase
      case Loaded => Enabled(s, Classify(x))
      case Proceeding => Enabled(s, Acquire(x)) && Enabled(s, Defer(x))
      case Leased => Enabled(s, PreCheck(x)) && (Enabled(s, Raise(x, fault)) <==> !fault.NoHandlerFault?)
      case Running => Enabled(s, Commit(x, signal)) && Enabled(s, Raise(x, fault))
      case Committed => Enabled(s, Release(x)) && (Enabled(s, Raise(x, fault)) <==> fault.FatalFault?)
      case Caught(_) => Enabled(s, HandleFailure(x))
      case _ => Enabled(s, Ack(x))
  {
    assert ExecOk(cfg, s.db, s.queue, s.execs[x]);
    assert InRange(s, x) by {
      assert EntryOk(cfg, s.db, s.queue[s.execs[x].entry]);
    }
  }

  /** Nor is an entry: a pending one can be received and its row marked, and whatever its
      fate the row can be published again. */
  lemma NoEntryIsStuck(cfg: Config, s: Store, i: nat)
    requires Safe(cfg, s) && i < |s.queue|
    ensures s.queue[i].acked.None? <==> Enabled(s, Receive(i))
    ensures Enabled(s, MarkPublished(s.queue[i].row)) && Enabled(s, Enqueue(s.queue[i].row))
  {
    assert EntryOk(cfg, s.db, s.queue[i]);
  }

  /** An acknowledgement: a pending entry is acknowledged with what the delivery saw and
      the delivery is over; an entry acknowledged before stays as it is. */
  lemma AcknowledgingMeans(cfg: Config, s: Store, x: nat)
    requires Enabled(s, Ack(x))
    ensures
      var s', e := Next(cfg, s, Ack(x)), s.execs[x].entry;
      && s'.db == s.db
      && (if s.queue[e].acked.None? then
            s'.queue == s.queue[e := s.queue[e].(acked := Some(s.execs[x].seen))] && s'.execs[x].phase.Ended?
          else
            && s'.queue == s.queue
            && s'.execs[x].phase ==
               if s.execs[x].phase.Duplicate? || s.execs[x].phase.Released? then Caught(FatalFault) else Ended)
  {
  }

  /** Only delivery x has moved, to this phase. */
  ghost predicate OnlyMoves(s: Store, s': Store, x: nat, phase: Phase)
    requires x < |s.execs|
  {
    && s'.db == s.db && s'.queue == s.queue && s'.leases == s.leases && s'.scanned == s.scanned
    && |s'.execs| == |s.execs| && s'.execs[x] == s.execs[x].(phase := phase)
    && forall y :: 0 <= y < |s.execs| && y != x ==> s'.execs[y] == s.execs[y]
  }

  /** The steps of a delivery that is put off, fails or crashes: its lease, if any, stays
      behind until it expires or the failure is handled. A refused commit is an error too. */
  lemma DeliveriesEndAlone(cfg: Config, s: Store, ev: Event)
    requires Enabled(s, ev)
    ensures ev.Defer? || ev.Crash? ==> OnlyMoves(s, Next(cfg, s, ev), ev.x, Ended)
    ensures ev.Raise? ==> OnlyMoves(s, Next(cfg, s, ev), ev.x, Caught(ev.fault))
    ensures ev.Commit? && !Worker.Commit(cfg.handlers, cfg.maxRevisions, s.db, TaskOf(s, ev.x), ev.signal).Done? ==>
      OnlyMoves(s, Next(cfg, s, ev), ev.x, Caught(FatalFault))
  {
  }

  /** The steps that no delivery takes. */
  lemma OutsideStepsMean(cfg: Config, s: Store, ev: Event)
    requires Enabled(s, ev)
    ensures ev.MarkPublished? ==>
      var s' := Next(cfg, s, ev);
      && s' == s.(db := s.db.(outbox := s'.db.outbox)) && |s'.db.outbox| == |s.db.outbox|
      && s'.db.outbox[ev.row] == OutboxRow(s.db.outbox[ev.row].task, true)
      && forall o :: 0 <= o < |s.db.outbox| && o != ev.row ==> s'.db.outbox[o] == s.db.outbox[o]
    ensures ev.ExpireLease? ==>
      var s' := Next(cfg, s, ev);
      && s' == s.(leases := s'.leases) && ev.task !in s'.leases
      && forall u :: u != ev.task ==>
           (u in s'.leases <==> u in s.leases) && (u in s.leases ==> s'.leases[u] == s.leases[u])
    ensures ev.HumanAction? ==>
      var s' := Next(cfg, s, ev);
      if s.db.row.state.AwaitingHumanApproval? then
        s' == s.(db := s'.db) && s'.db.row.state == DecisionTarget(ev.action) && s'.db.history != s.db.history
      else s' == s
    ensures ev.CollectCandidate? ==> Next(cfg, s, ev) == s.(scanned := s.scanned + [ev.candidate])
  {
  }

  /** The reconciler's turn on a candidate: nothing if the workflow has moved on, and
      otherwise the repair, on a stuck or missing task never without effect. */
  lemma RepairStepMeans(cfg: Config, s: Store, n: nat, elapsed: real)
    requires ValidConfig(cfg) && Enabled(s, RepairCandidate(n, elapsed)) && CollectedEarlier(s.scanned[n])
    ensures
      var c, s' := s.scanned[n], Next(cfg, s, RepairCandidate(n, elapsed));
      && (c.row.version != s.db.row.version ==> s' == s)
      && (c.row == s.db.row && (c.pattern.RP001? || (c.pattern.RP003? && Stuck(s.db, c.expected, elapsed))) ==>
            && RepairOne(cfg, s.db, c, elapsed).Repaired?
            && s' == s.(db := RepairOne(cfg, s.db, c, elapsed).db) && s'.db != s.db)
  {
    var c := s.scanned[n];
    if c.row == s.db.row && c.pattern.RP001? {
      MissingIsDispatched(cfg, s.db, c, elapsed);
    } else if c.row == s.db.row && c.pattern.RP003? && Stuck(s.db, c.expected, elapsed) {
      StuckIsResolved(cfg, s.db, c, elapsed);
      RepairSignalApplies(cfg.maxRevisions, s.db);
    }
  }

  /** When a failure is handled although its task is completed: it fails the workflow
      exactly when it is not retried and the workflow is in the task's execution state
      again, which only a GENERATE or a REVIEW can find; otherwise the row stays. No
      lease has a part in this. */
  lemma {:induction false} LateFailureFailsExactlyWhen(cfg: Config, s: Store, x: nat)
    requires ValidConfig(cfg) && Safe(cfg, s) && Enabled(s, HandleFailure(x)) && ExecKey(s, x) in s.db.claims
    ensures
      var row := FailureStep(cfg, s, x).db.row;
      && (row != s.db.row <==> !Retries(cfg, s, x) && s.db.row.state == ExpectedState(KindOf(s, x)))
      && (row != s.db.row ==>
            && (row.state.Failed? || row.state.FailedPermanently?)
            && (KindOf(s, x).GenerateScenario? || KindOf(s, x).ReviewScenario?))
  {
    if !Retries(cfg, s, x) {
      DeadEndIsMarked(cfg, s, x);
      if KindOf(s, x).Collect? || KindOf(s, x).SelectTopic? {
        CollectAndSelectLosersChangeNothing(cfg, s, x, HandleFailure(x));
      }
    }
  }

  /** In every run the history rebuilds the row, the revision cap holds and the
      history is short; and an approved workflow passed review and a human. */
  lemma {:induction false} RunsKeepHistory(cfg: Config, states: seq<Store>, events: seq<Event>, i: nat)
    requires Run(cfg, states, events) && i < |states|
    ensures
      var db := states[i].db;
      && Replay(cfg.maxRevisions, db.history) == Some(db.row)
      && db.row.version == |db.history| + 1
      && db.row.revisions <= cfg.maxRevisions
      && |db.history| <= 10 + 4 * cfg.maxRevisions + 5 * Regenerations(db.history)
      && (db.row.state.Approved? ==>
            |db.history| >= 5 && db.history[|db.history| - 3].cause == Signalled(CriticPass)
            && db.history[|db.history| - 1].cause == Decided(Approve))
  {
    RunsAreSafe(cfg, states, events, i);
    var db := states[i].db;
    FaithfulIsChain(cfg.maxRevisions, db.history, db.row);
    HistoryIsBounded(cfg.maxRevisions, db.history, db.row);
    if db.row.state.Approved? {
      ApprovedWentThroughReviewAndHuman(cfg.maxRevisions, db.history, db.row);
    }
  }

  /** Attempts stay within the retry policy, for tasks, messages and deliveries,
      however stale the attempt numbers that workers act on. */
  lemma AttemptsStayBounded(cfg: Config, states: seq<Store>, events: seq<Event>, i: nat)
    requires Run(cfg, states, events) && i < |states|
    ensures AttemptsBounded(cfg, states[i].db)
    ensures forall x :: 0 <= x < |states[i].execs| ==>
      InRange(states[i], x) && 1 <= states[i].execs[x].attempt <= cfg.attempts(KindOf(states[i], x))
  {
    RunsAreSafe(cfg, states, events, i);
    forall x | 0 <= x < |states[i].execs|
      ensures InRange(states[i], x) && 1 <= states[i].execs[x].attempt <= cfg.attempts(KindOf(states[i], x))
    {
      assert ExecOk(cfg, states[i].db, states[i].queue, states[i].execs[x]);
    }
  }
}
