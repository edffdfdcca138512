/** Runs that exist: one that brings a workflow to approval, two in which a late
    failure fails a workflow that has gone on, with a lease expiring and without, and
    one in which a task that failed for good is dispatched again. */
module ProtocolWitness {
  import opened WorkflowTypes
  import opened TransitionTable
  import opened Engine
  import opened History
  import opened Reconcile
  import opened Ledger
  import opened Protocol
  import opened ProtocolSafety
  import opened ProtocolGuarantees
  import Worker

  /** The state after the events, if each of them is enabled in its turn. */
  function Play(cfg: Config, s: Store, events: seq<Event>): Option<Store>
    decreases |events|
  {
    if events == [] then Some(s)
    else if Enabled(s, events[0]) then Play(cfg, Next(cfg, s, events[0]), events[1..])
    else None
  }

  lemma {:induction false} PlayAppends(cfg: Config, s: Store, a: seq<Event>, b: seq<Event>)
    requires Play(cfg, s, a).Some?
    ensures Play(cfg, s, a + b) == Play(cfg, Play(cfg, s, a).value, b)
    decreases |a|
  {
    if a == [] {
      assert a + b == b;
    } else {
      assert (a + b)[1..] == a[1..] + b;
      PlayAppends(cfg, Next(cfg, s, a[0]), a[1..], b);
    }
  }

  ghost predicate Steps(cfg: Config, states: seq<Store>, events: seq<Event>) {
    && |states| == |events| + 1
    && forall i :: 0 <= i < |events| ==>
         Enabled(states[i], events[i]) && states[i + 1] == Next(cfg, states[i], events[i])
  }

  lemma {:induction false} StepsPrepend(cfg: Config, s: Store, ev: Event, states: seq<Store>, events: seq<Event>)
    requires Enabled(s, ev) && Steps(cfg, states, events) && states[0] == Next(cfg, s, ev)
    ensures Steps(cfg, [s] + states, [ev] + events)
  {
    var longer, all := [s] + states, [ev] + events;
    forall i | 0 <= i < |all| ensures Enabled(longer[i], all[i]) && longer[i + 1] == Next(cfg, longer[i], all[i]) {
      if i > 0 {
        assert all[i] == events[i - 1] && longer[i] == states[i - 1] && longer[i + 1] == states[i - 1 + 1];
      }
    }
  }

  /** What is played can be written down state by state. */
  lemma {:induction false} PlayIsARun(cfg: Config, s: Store, events: seq<Event>) returns (states: seq<Store>)
    requires Play(cfg, s, events).Some?
    ensures Steps(cfg, states, events) && states[0] == s && states[|events|] == Play(cfg, s, events).value
    decreases |events|
  {
    states := [s];
    if events != [] {
      var rest := PlayIsARun(cfg, Next(cfg, s, events[0]), events[1..]);
      StepsPrepend(cfg, s, events[0], rest, events[1..]);
      assert events == [events[0]] + events[1..];
      states := [s] + rest;
    }
  }

  /** Publish row o and take its task up to the running handler. */
  function Start(s: Store, o: nat): seq<Event> {
    [Enqueue(o), Receive(|s.queue|), Classify(|s.execs|), Acquire(|s.execs|), PreCheck(|s.execs|)]
  }

  predicate CanStart(s: Store, o: nat) {
    && o < |s.db.outbox| && s.db.outbox[o].task < |s.db.tasks|
    && var t := s.db.outbox[o].task;
       && t !in s.leases
       && s.db.row.state == ExpectedState(s.db.tasks[t].kind)
       && KeyOf(s.db.tasks[t]) !in s.db.claims
  }

  function Started(s: Store, o: nat): Store
    requires CanStart(s, o)
  {
    var t := s.db.outbox[o].task;
    var attempt := s.db.tasks[t].attempt;
    Store(s.db, s.queue + [Entry(o, t, attempt, None)],
          s.execs + [Exec(|s.queue|, attempt, s.db.row.version, Running)],
          s.leases[t := |s.execs|], s.scanned)
  }

  lemma {:induction false} PlayOne(cfg: Config, s: Store, ev: Event, rest: seq<Event>)
    requires Enabled(s, ev)
    ensures Play(cfg, s, [ev] + rest) == Play(cfg, Next(cfg, s, ev), rest)
  {
    assert ([ev] + rest)[1..] == rest;
  }

  lemma {:induction false} ReceivePlays(cfg: Config, s: Store, o: nat)
    requires CanStart(s, o)
    ensures Play(cfg, s, [Enqueue(o), Receive(|s.queue|)]) == Some(Received(s, o))
  {
    var t, i := s.db.outbox[o].task, |s.queue|;
    var queued := s.(queue := s.queue + [Entry(o, t, s.db.tasks[t].attempt, None)]);
    assert Next(cfg, s, Enqueue(o)) == queued;
    assert Next(cfg, queued, Receive(i)) == Received(s, o);
    PlayOne(cfg, queued, Receive(i), []);
    PlayOne(cfg, s, Enqueue(o), [Receive(i)]);
    assert [Enqueue(o), Receive(i)] == [Enqueue(o)] + [Receive(i)];
    assert [Receive(i)] == [Receive(i)] + [];
  }

  function Received(s: Store, o: nat): Store
    requires CanStart(s, o)
  {
    Started(s, o).(
      execs := s.execs + [Exec(|s.queue|, s.db.tasks[s.db.outbox[o].task].attempt, 0, Loaded)],
      leases := s.leases)
  }

  lemma {:induction false} ExecutePlays(cfg: Config, s: Store, o: nat)
    requires CanStart(s, o)
    ensures Play(cfg, Received(s, o), [Classify(|s.execs|), Acquire(|s.execs|), PreCheck(|s.execs|)])
         == Some(Started(s, o))
  {
    var n, started := |s.execs|, Started(s, o);
    var received := Received(s, o);
    var looked := received.(execs := s.execs + [started.execs[n].(phase := Proceeding)]);
    assert Next(cfg, received, Classify(n)) == looked;
    var leased := started.(execs := s.execs + [started.execs[n].(phase := Leased)]);
    assert Next(cfg, looked, Acquire(n)) == leased;
    assert Next(cfg, leased, PreCheck(n)) == started;
    PlayOne(cfg, leased, PreCheck(n), []);
    PlayOne(cfg, looked, Acquire(n), [PreCheck(n)]);
    PlayOne(cfg, received, Classify(n), [Acquire(n), PreCheck(n)]);
    assert [Classify(n), Acquire(n), PreCheck(n)] == [Classify(n)] + [Acquire(n), PreCheck(n)];
    assert [Acquire(n), PreCheck(n)] == [Acquire(n)] + [PreCheck(n)];
    assert [PreCheck(n)] == [PreCheck(n)] + [];
  }

  lemma {:induction false} StartPlays(cfg: Config, s: Store, o: nat)
    requires CanStart(s, o)
    ensures Play(cfg, s, Start(s, o)) == Some(Started(s, o))
  {
    var n, i := |s.execs|, |s.queue|;
    ReceivePlays(cfg, s, o);
    ExecutePlays(cfg, s, o);
    PlayAppends(cfg, s, [Enqueue(o), Receive(i)], [Classify(n), Acquire(n), PreCheck(n)]);
    assert Start(s, o) == [Enqueue(o), Receive(i)] + [Classify(n), Acquire(n), PreCheck(n)];
  }

  // --- One task after the other ---

  /** Tasks with these keys were dispatched in turn, and all but the last are completed. */
  ghost predicate InTurn(db: Durable, keys: seq<Key>) {
    && |db.tasks| == |db.outbox| == |keys| > 0
    && (forall i :: 0 <= i < |keys| ==> KeyOf(db.tasks[i]) == keys[i] && db.outbox[i].task == i)
    && (forall k :: k in db.claims <==> k in keys[..|keys| - 1])
    && keys[|keys| - 1] !in keys[..|keys| - 1]
    && db.row.state == ExpectedState(keys[|keys| - 1].kind)
  }

  ghost predicate Ready(cfg: Config, s: Store, keys: seq<Key>) {
    InTurn(s.db, keys) && Stored(cfg.handlers, s.db) && forall t :: t in s.leases ==> t < |keys| - 1
  }

  /** The artifact of the last task is new: it is a scenario of a new version, or
      the first artifact of its stage. */
  ghost predicate StoresNew(keys: seq<Key>) {
    |keys| > 0 && (keys[|keys| - 1].kind.GenerateScenario?
                   || forall i :: 0 <= i < |keys| - 1 ==> keys[i].kind != keys[|keys| - 1].kind)
  }

  lemma {:induction false} LastIsNotTaken(cfg: Config, db: Durable, keys: seq<Key>)
    requires ValidConfig(cfg) && InTurn(db, keys) && Stored(cfg.handlers, db) && StoresNew(keys)
    ensures !Worker.ArtifactTaken(cfg.handlers, db, |keys| - 1)
  {
    var t := |keys| - 1;
    assert KeyOf(db.tasks[t]) == keys[t];
    if keys[t].kind.GenerateScenario? {
      ScenarioIsTakenWhenClaimed(cfg, db, t);
    }
  }

  /** What one uninterrupted delivery of the last task leads to. */
  ghost predicate Delivers(cfg: Config, s: Store, events: seq<Event>, s': Store, t: nat, signal: Signal)
    requires t < |s.db.tasks|
  {
    && Play(cfg, s, events) == Some(s')
    && Worker.Commit(cfg.handlers, cfg.maxRevisions, s.db, t, signal).Done?
    && s'.db == Worker.Commit(cfg.handlers, cfg.maxRevisions, s.db, t, signal).db
    && s.queue <= s'.queue && s.execs <= s'.execs
    && |s.execs| < |s'.execs| && InRange(s', |s.execs|) && TaskOf(s', |s.execs|) == t
    && s'.execs[|s.execs|].phase.Committed?
    && (forall u :: u in s'.leases ==> u in s.leases || u == t)
    && (forall i :: 0 <= i < |events| ==> !events[i].ExpireLease?)
  }

  lemma {:induction false} Deliver(cfg: Config, s: Store, keys: seq<Key>, signal: Signal)
    returns (events: seq<Event>, s': Store)
    requires Ready(cfg, s, keys)
    requires Worker.Commit(cfg.handlers, cfg.maxRevisions, s.db, |keys| - 1, signal).Done?
    ensures Delivers(cfg, s, events, s', |keys| - 1, signal)
  {
    var t, n := |keys| - 1, |s.execs|;
    assert s.db.outbox[t].task == t && KeyOf(s.db.tasks[t]) == keys[t];
    StartPlays(cfg, s, t);
    var r := Worker.Commit(cfg.handlers, cfg.maxRevisions, s.db, t, signal);
    events := Start(s, t) + [Commit(n, signal)];
    s' := CommittedWith(Started(s, t), n, r);
    CommitPlays(cfg, Started(s, t), n, signal, r);
    PlayAppends(cfg, s, Start(s, t), [Commit(n, signal)]);
  }

  lemma {:induction false} CommitPlays(cfg: Config, s: Store, x: nat, signal: Signal, r: Outcome)
    requires InRange(s, x) && s.execs[x].phase.Running?
    requires r == Worker.Commit(cfg.handlers, cfg.maxRevisions, s.db, TaskOf(s, x), signal)
    ensures Play(cfg, s, [Commit(x, signal)]) == Some(CommittedWith(s, x, r))
  {
    PlayOne(cfg, s, Commit(x, signal), []);
    assert [Commit(x, signal)] == [Commit(x, signal)] + [];
  }

  /** The last task is completed by this signal and followed by a task with this key. */
  ghost predicate Follows(cfg: Config, db: Durable, keys: seq<Key>, signal: Signal, next: Key) {
    && InTurn(db, keys) && next !in keys && StoresNew(keys)
    && var path := Worker.LandingPath(keys[|keys| - 1].kind, signal, db.row.revisions, cfg.maxRevisions);
       && path != []
       && var task := Worker.LandingJob(path, ScenarioAfter(db, keys));
          task.Some? && KeyOf(task.value) == next
  }

  function ScenarioAfter(db: Durable, keys: seq<Key>): nat
    requires |keys| > 0
  {
    var last := keys[|keys| - 1];
    if last.kind.GenerateScenario? then last.logical else db.scenario
  }

  lemma {:induction false} LandedInTurn(cfg: Config, db: Durable, keys: seq<Key>, signal: Signal, next: Key)
    requires Follows(cfg, db, keys, signal, next)
    ensures KeyOf(db.tasks[|keys| - 1]) == keys[|keys| - 1]
    ensures
      var landed := Worker.Landed(cfg.handlers, cfg.maxRevisions, db, |keys| - 1, signal);
      && InTurn(landed, keys + [next]) && landed.scenario == ScenarioAfter(db, keys)
      && landed.row.revisions == db.row.revisions + if signal.CriticRevise? then 1 else 0
  {
    var t := |keys| - 1;
    assert KeyOf(db.tasks[t]) == keys[t];
    var landed := Worker.Landed(cfg.handlers, cfg.maxRevisions, db, t, signal);
    var longer := keys + [next];
    assert longer[..|keys|] == keys && keys == keys[..t] + [keys[t]];
    forall i | 0 <= i < |longer| ensures KeyOf(landed.tasks[i]) == longer[i] && landed.outbox[i].task == i {
      if i < |keys| {
        assert KeyOf(db.tasks[i]) == keys[i] && db.outbox[i].task == i;
      }
    }
  }

  /** The database after the last task is completed and the next one dispatched. */
  ghost predicate Advances(cfg: Config, db: Durable, keys: seq<Key>, signal: Signal, next: Key, r: Outcome)
    requires |keys| > 0
  {
    && r.Done? && InTurn(r.db, keys + [next]) && Stored(cfg.handlers, r.db)
    && r.db.scenario == ScenarioAfter(db, keys)
    && r.db.row.revisions == db.row.revisions + if signal.CriticRevise? then 1 else 0
  }

  lemma {:induction false} CommitInTurn(cfg: Config, db: Durable, keys: seq<Key>, signal: Signal, next: Key)
    returns (r: Outcome)
    requires ValidConfig(cfg) && Stored(cfg.handlers, db) && Follows(cfg, db, keys, signal, next)
    ensures r == Worker.Commit(cfg.handlers, cfg.maxRevisions, db, |keys| - 1, signal)
    ensures Advances(cfg, db, keys, signal, next, r)
  {
    r := LastLands(cfg, db, keys, signal, next);
    LandedInTurn(cfg, db, keys, signal, next);
  }

  lemma {:induction false} LastLands(cfg: Config, db: Durable, keys: seq<Key>, signal: Signal, next: Key)
    returns (r: Outcome)
    requires ValidConfig(cfg) && Stored(cfg.handlers, db) && Follows(cfg, db, keys, signal, next)
    ensures r == Worker.Commit(cfg.handlers, cfg.maxRevisions, db, |keys| - 1, signal) && r.Done?
    ensures KeyOf(db.tasks[|keys| - 1]) == keys[|keys| - 1]
    ensures r.db == Worker.Landed(cfg.handlers, cfg.maxRevisions, db, |keys| - 1, signal) && Stored(cfg.handlers, r.db)
  {
    var t := |keys| - 1;
    assert KeyOf(db.tasks[t]) == keys[t];
    LastIsNotTaken(cfg, db, keys);
    Worker.CommitLands(cfg.handlers, cfg.maxRevisions, db, t, signal);
    CommitKeepsStored(cfg, db, t, signal);
    r := Worker.Commit(cfg.handlers, cfg.maxRevisions, db, t, signal);
  }

  /** Deliver the last task, and the next one is in turn. */
  lemma {:induction false} Proceed(cfg: Config, s: Store, keys: seq<Key>, signal: Signal, next: Key)
    returns (events: seq<Event>, s': Store)
    requires ValidConfig(cfg) && Ready(cfg, s, keys) && Follows(cfg, s.db, keys, signal, next)
    ensures Delivers(cfg, s, events, s', |keys| - 1, signal) && Ready(cfg, s', keys + [next])
    ensures s'.db.scenario == ScenarioAfter(s.db, keys)
    ensures s'.db.row.revisions == s.db.row.revisions + if signal.CriticRevise? then 1 else 0
  {
    var r := CommitInTurn(cfg, s.db, keys, signal, next);
    events, s' := Deliver(cfg, s, keys, signal);
    assert s'.db == r.db;
    LeasesStayBehind(s, s', |keys| - 1);
  }

  lemma LeasesStayBehind(s: Store, s': Store, t: nat)
    requires forall u :: u in s.leases ==> u < t
    requires forall u :: u in s'.leases ==> u in s.leases || u == t
    ensures forall u :: u in s'.leases ==> u < t + 1
  {
  }

  // --- To approval, and to a late failure ---

  const COLLECT := Key(Collect, 1)
  const SELECT := Key(SelectTopic, 1)
  const GENERATE := Key(GenerateScenario, 1)
  const REVIEW := Key(ReviewScenario, 1)
  const GENERATE_AGAIN := Key(GenerateScenario, 2)

  function UpToSelection(): seq<Key> {
    [COLLECT] + [SELECT]
  }

  function UpToGeneration(): seq<Key> {
    UpToSelection() + [GENERATE]
  }

  function UpToReview(): seq<Key> {
    UpToGeneration() + [REVIEW]
  }

  function UpToRevision(): seq<Key> {
    UpToReview() + [GENERATE_AGAIN]
  }

  ghost predicate Reaches(cfg: Config, events: seq<Event>, s: Store) {
    Play(cfg, Init(), events) == Some(s)
  }

  ghost predicate Quiet(events: seq<Event>) {
    forall i :: 0 <= i < |events| ==> !events[i].ExpireLease?
  }

  lemma {:induction false} ReachOn(cfg: Config, a: seq<Event>, s: Store, b: seq<Event>, s': Store)
    requires Reaches(cfg, a, s) && Play(cfg, s, b) == Some(s')
    ensures Reaches(cfg, a + b, s')
  {
    PlayAppends(cfg, Init(), a, b);
  }

  lemma InitIsReady(cfg: Config)
    ensures Ready(cfg, Init(), [COLLECT]) && Init().db.scenario == 0 && Init().db.row.revisions == 0
  {
    assert [COLLECT][..0] == [];
    NothingStored(cfg.handlers, Init().db);
  }

  lemma SelectionFits(cfg: Config, db: Durable)
    requires InTurn(db, [COLLECT]) && db.scenario == 0 && db.row.revisions == 0
    ensures Follows(cfg, db, [COLLECT], StageCompleted, SELECT) && ScenarioAfter(db, [COLLECT]) == 0
  {
  }

  lemma {:induction false} SelectionFollows(cfg: Config, s: Store) returns (events: seq<Event>, s': Store)
    requires ValidConfig(cfg)
    requires Ready(cfg, s, [COLLECT]) && s.db.scenario == 0 && s.db.row.revisions == 0
    ensures Delivers(cfg, s, events, s', 0, StageCompleted)
    ensures Ready(cfg, s', UpToSelection()) && s'.db.scenario == 0 && s'.db.row.revisions == 0
  {
    SelectionFits(cfg, s.db);
    events, s' := Proceed(cfg, s, [COLLECT], StageCompleted, SELECT);
  }

  lemma GenerationFits(cfg: Config, db: Durable)
    requires InTurn(db, UpToSelection()) && db.scenario == 0 && db.row.revisions == 0
    ensures Follows(cfg, db, UpToSelection(), StageCompleted, GENERATE) && ScenarioAfter(db, UpToSelection()) == 0
  {
  }

  lemma {:induction false} GenerationFollows(cfg: Config, s: Store) returns (events: seq<Event>, s': Store)
    requires ValidConfig(cfg)
    requires Ready(cfg, s, UpToSelection()) && s.db.scenario == 0 && s.db.row.revisions == 0
    ensures Delivers(cfg, s, events, s', 1, StageCompleted)
    ensures Ready(cfg, s', UpToGeneration()) && s'.db.scenario == 0 && s'.db.row.revisions == 0
  {
    GenerationFits(cfg, s.db);
    events, s' := Proceed(cfg, s, UpToSelection(), StageCompleted, GENERATE);
  }

  lemma {:induction false} GenerationIsReachable(cfg: Config) returns (events: seq<Event>, s: Store)
    requires ValidConfig(cfg)
    ensures Reaches(cfg, events, s) && Quiet(events)
    ensures Ready(cfg, s, UpToGeneration()) && s.db.scenario == 0 && s.db.row.revisions == 0
  {
    InitIsReady(cfg);
    var e1, s1 := SelectionFollows(cfg, Init());
    var e2, s2 := GenerationFollows(cfg, s1);
    ReachOn(cfg, e1, s1, e2, s2);
    events, s := e1 + e2, s2;
  }

  lemma ReviewFits(cfg: Config, db: Durable)
    requires InTurn(db, UpToGeneration()) && db.row.revisions == 0
    ensures Follows(cfg, db, UpToGeneration(), StageCompleted, REVIEW)
    ensures ScenarioAfter(db, UpToGeneration()) == 1
  {
  }

  lemma {:induction false} ReviewFollows(cfg: Config, s: Store) returns (events: seq<Event>, s': Store)
    requires ValidConfig(cfg)
    requires Ready(cfg, s, UpToGeneration()) && s.db.row.revisions == 0
    ensures Delivers(cfg, s, events, s', 2, StageCompleted)
    ensures Ready(cfg, s', UpToReview()) && s'.db.scenario == 1 && s'.db.row.revisions == 0
  {
    ReviewFits(cfg, s.db);
    events, s' := Proceed(cfg, s, UpToGeneration(), StageCompleted, REVIEW);
  }

  lemma ReviewDatabase(db: Durable)
    requires InTurn(db, UpToReview())
    ensures |db.tasks| == 4 && KeyOf(db.tasks[3]) == REVIEW && REVIEW !in db.claims && db.row.state.Reviewing?
    ensures StoresNew(UpToReview())
  {
    assert KeyOf(db.tasks[3]) == UpToReview()[3];
  }

  lemma {:induction false} ReviewPasses(cfg: Config, db: Durable, t: nat)
    requires t < |db.tasks| && db.tasks[t].kind.ReviewScenario? && KeyOf(db.tasks[t]) !in db.claims
    requires db.row.state.Reviewing? && !Worker.ArtifactTaken(cfg.handlers, db, t)
    ensures
      var r := Worker.Commit(cfg.handlers, cfg.maxRevisions, db, t, CriticPass);
      r.Done? && r.db.row.state.AwaitingHumanApproval?
  {
    Worker.CommitLands(cfg.handlers, cfg.maxRevisions, db, t, CriticPass);
  }

  lemma {:induction false} PassedReviewAwaitsApproval(cfg: Config, s: Store) returns (events: seq<Event>, s': Store)
    requires ValidConfig(cfg)
    requires Ready(cfg, s, UpToReview())
    ensures Play(cfg, s, events) == Some(s') && Quiet(events) && s'.db.row.state.AwaitingHumanApproval?
  {
    ReviewDatabase(s.db);
    LastIsNotTaken(cfg, s.db, UpToReview());
    ReviewPasses(cfg, s.db, 3);
    events, s' := Deliver(cfg, s, UpToReview(), CriticPass);
  }

  lemma {:induction false} ReviewIsReachable(cfg: Config) returns (events: seq<Event>, s: Store)
    requires ValidConfig(cfg)
    ensures Reaches(cfg, events, s) && Quiet(events) && Ready(cfg, s, UpToReview())
  {
    var e2, s2 := GenerationIsReachable(cfg);
    var e3, s3 := ReviewFollows(cfg, s2);
    ReachOn(cfg, e2, s2, e3, s3);
    events, s := e2 + e3, s3;
  }

  lemma {:induction false} AwaitingApprovalIsReachable(cfg: Config) returns (events: seq<Event>, s: Store)
    requires ValidConfig(cfg)
    ensures Reaches(cfg, events, s) && Quiet(events) && s.db.row.state.AwaitingHumanApproval?
  {
    var e3, s3 := ReviewIsReachable(cfg);
    var e4, s4 := PassedReviewAwaitsApproval(cfg, s3);
    ReachOn(cfg, e3, s3, e4, s4);
    events, s := e3 + e4, s4;
  }

  lemma {:induction false} ReachOneMore(cfg: Config, events: seq<Event>, s: Store, ev: Event)
    requires Reaches(cfg, events, s) && Enabled(s, ev)
    ensures Reaches(cfg, events + [ev], Next(cfg, s, ev))
  {
    PlayOne(cfg, s, ev, []);
    assert [ev] == [ev] + [];
    ReachOn(cfg, events, s, [ev], Next(cfg, s, ev));
  }

  lemma {:induction false} ReachedByARun(cfg: Config, events: seq<Event>, s: Store) returns (states: seq<Store>)
    requires ValidConfig(cfg) && Reaches(cfg, events, s)
    ensures Run(cfg, states, events) && states[|events|] == s
  {
    states := PlayIsARun(cfg, Init(), events);
  }

  /** There is a run, with no lease expiring, in which the workflow is approved: the
      promises about all runs are about runs that get somewhere. */
  lemma {:induction false} ApprovalIsReachable(cfg: Config) returns (states: seq<Store>, events: seq<Event>)
    requires ValidConfig(cfg)
    ensures Run(cfg, states, events) && Quiet(events) && LeasesOutlive(states, events)
    ensures states[|events|].db.row.state.Approved?
  {
    var before, s := AwaitingApprovalIsReachable(cfg);
    ReachOneMore(cfg, before, s, HumanAction(Approve));
    events := before + [HumanAction(Approve)];
    states := ReachedByARun(cfg, events, Next(cfg, s, HumanAction(Approve)));
  }

  lemma RevisionFits(cfg: Config, db: Durable)
    requires ValidConfig(cfg)
    requires InTurn(db, UpToReview()) && db.scenario == 1 && db.row.revisions == 0
    ensures Follows(cfg, db, UpToReview(), CriticRevise, GENERATE_AGAIN)
  {
  }

  lemma {:induction false} RevisionFollows(cfg: Config, s: Store) returns (events: seq<Event>, s': Store)
    requires ValidConfig(cfg)
    requires Ready(cfg, s, UpToReview()) && s.db.scenario == 1 && s.db.row.revisions == 0
    ensures Delivers(cfg, s, events, s', 3, CriticRevise)
    ensures Ready(cfg, s', UpToRevision()) && s'.db.row.revisions == 1
  {
    RevisionFits(cfg, s.db);
    events, s' := Proceed(cfg, s, UpToReview(), CriticRevise, GENERATE_AGAIN);
  }

  /** A first delivery of GENERATE that is still running after its lease ran out. */
  lemma {:induction false} LeaseRunsOut(cfg: Config, s: Store) returns (events: seq<Event>, s': Store)
    requires Ready(cfg, s, UpToGeneration())
    ensures Play(cfg, s, events) == Some(s') && ExpireLease(2) in events
    ensures Ready(cfg, s', UpToGeneration()) && s'.db == s.db
    ensures |s'.execs| == |s.execs| + 1 && InRange(s', |s.execs|) && TaskOf(s', |s.execs|) == 2
    ensures s'.execs[|s.execs|].phase.Running?
  {
    assert s.db.outbox[2].task == 2 && KeyOf(s.db.tasks[2]) == UpToGeneration()[2];
    StartPlays(cfg, s, 2);
    var started := Started(s, 2);
    s' := started.(leases := started.leases - {2});
    PlayOne(cfg, started, ExpireLease(2), []);
    PlayAppends(cfg, s, Start(s, 2), [ExpireLease(2)]);
    assert [ExpireLease(2)] == [ExpireLease(2)] + [];
    events := Start(s, 2) + [ExpireLease(2)];
  }

  /** A delivery of task 2 that is still running while the workflow generates again. */
  ghost predicate Late(cfg: Config, s: Store, x: nat) {
    && Stored(cfg.handlers, s.db) && s.db.row.state.GeneratingScenario?
    && InRange(s, x) && KindOf(s, x).GenerateScenario? && ExecKey(s, x) in s.db.claims
    && s.execs[x].phase.Running?
  }

  /** It commits at last: its scenario exists, and it is left with an error to handle. */
  lemma {:induction false} LateCommitIsRefused(cfg: Config, s: Store, x: nat)
    requires ValidConfig(cfg) && Late(cfg, s, x)
    ensures Next(cfg, s, Commit(x, StageCompleted)) == To(s, x, Caught(FatalFault))
  {
    GenerateClaimIsNeverRejected(cfg, s.db, TaskOf(s, x), StageCompleted);
  }

  lemma RevisedDatabase(db: Durable)
    requires InTurn(db, UpToRevision())
    ensures |db.tasks| == 5 && KeyOf(db.tasks[2]) == GENERATE && GENERATE in db.claims
    ensures db.row.state.GeneratingScenario?
  {
    assert KeyOf(db.tasks[2]) == UpToRevision()[2];
    assert UpToRevision()[2] == UpToRevision()[..4][2];
  }

  /** Handling it fails the workflow, because the workflow is generating again. */
  lemma {:induction false} LateFailureApplies(cfg: Config, s: Store, x: nat)
    requires s.db.row.state.GeneratingScenario? && InRange(s, x) && KindOf(s, x).GenerateScenario?
    requires s.execs[x].phase == Caught(FatalFault)
    ensures FailureStep(cfg, s, x).db.row.state == if Exhausted(cfg, s, x) then FailedPermanently else Failed
  {
    FailureApplies(cfg.maxRevisions, s.db, GenerateScenario, Exhausted(cfg, s, x));
  }

  lemma DeliveryStays(s: Store, s': Store, x: nat)
    requires InRange(s, x) && s.queue <= s'.queue && s.execs <= s'.execs && |s.db.tasks| <= |s'.db.tasks|
    ensures InRange(s', x) && TaskOf(s', x) == TaskOf(s, x) && s'.execs[x] == s.execs[x]
  {
  }

  lemma {:induction false} RunningIsReviewed(cfg: Config) returns (events: seq<Event>, s: Store, x: nat)
    requires ValidConfig(cfg)
    ensures Reaches(cfg, events, s) && ExpireLease(2) in events
    ensures Ready(cfg, s, UpToReview()) && s.db.scenario == 1 && s.db.row.revisions == 0
    ensures InRange(s, x) && TaskOf(s, x) == 2 && s.execs[x].phase.Running?
  {
    var e2, s2 := GenerationIsReachable(cfg);
    x := |s2.execs|;
    var e3, s3 := LeaseRunsOut(cfg, s2);
    ReachOn(cfg, e2, s2, e3, s3);
    var e4, s4 := ReviewFollows(cfg, s3);
    ReachOn(cfg, e2 + e3, s3, e4, s4);
    DeliveryStays(s3, s4, x);
    events, s := e2 + e3 + e4, s4;
  }

  lemma {:induction false} RevisionIsReachable(cfg: Config) returns (events: seq<Event>, s: Store, x: nat)
    requires ValidConfig(cfg)
    ensures Reaches(cfg, events, s) && ExpireLease(2) in events
    ensures Ready(cfg, s, UpToRevision()) && s.db.row.revisions == 1
    ensures InRange(s, x) && TaskOf(s, x) == 2 && s.execs[x].phase.Running?
  {
    var e4, s4;
    e4, s4, x := RunningIsReviewed(cfg);
    var e5, s5 := RevisionFollows(cfg, s4);
    ReachOn(cfg, e4, s4, e5, s5);
    DeliveryStays(s4, s5, x);
    events, s := e4 + e5, s5;
  }

  /** The workflow generates its second scenario, after one revision. */
  ghost predicate SentBack(db: Durable) {
    InTurn(db, UpToRevision()) && db.row.revisions == 1
  }

  /** The last step of a run is a late failure: its delivery's task is completed and
      sent back, a newer task is outstanding, and the step fails the workflow. */
  ghost predicate EndsInLateFailure(cfg: Config, states: seq<Store>, events: seq<Event>, newer: nat) {
    && Run(cfg, states, events) && |events| > 0
    && var s, ev, s' := states[|events| - 1], events[|events| - 1], states[|events|];
       && ev.HandleFailure? && Enabled(s, ev) && !Retries(cfg, s, ev.x)
       && ExecKey(s, ev.x) == GENERATE && GENERATE in s.db.claims
       && s.db.row.state.GeneratingScenario? && s.db.row.revisions == 1
       && Outstanding(s, newer) && newer != TaskOf(s, ev.x) && KeyOf(s.db.tasks[newer]) == GENERATE_AGAIN
       && (s'.db.row.state.Failed? || s'.db.row.state.FailedPermanently?)
  }

  lemma NewerIsTheSecond(db: Durable, newer: nat)
    requires InTurn(db, UpToRevision()) && newer < |db.tasks| && KeyOf(db.tasks[newer]) !in db.claims
    ensures newer == 4 && KeyOf(db.tasks[newer]) == GENERATE_AGAIN
  {
    assert KeyOf(db.tasks[newer]) == UpToRevision()[newer];
  }

  lemma {:induction false} RunExtends(cfg: Config, states: seq<Store>, events: seq<Event>, ev: Event)
    requires Run(cfg, states, events) && Enabled(states[|events|], ev)
    ensures Run(cfg, states + [Next(cfg, states[|events|], ev)], events + [ev])
  {
    var longer, all := states + [Next(cfg, states[|events|], ev)], events + [ev];
    forall i | 0 <= i < |all| ensures Enabled(longer[i], all[i]) && longer[i + 1] == Next(cfg, longer[i], all[i]) {
      if i < |events| {
        assert longer[i] == states[i] && longer[i + 1] == states[i + 1] && all[i] == events[i];
      }
    }
  }

  /** From an error caught while the scenario is being generated again. */
  lemma {:induction false} LateFailure(cfg: Config, states: seq<Store>, events: seq<Event>, x: nat) returns (newer: nat)
    requires Run(cfg, states, events)
    requires
      var s := states[|events|];
      SentBack(s.db) && InRange(s, x) && TaskOf(s, x) == 2 && s.execs[x].phase == Caught(FatalFault)
    ensures
      var s := states[|events|];
      EndsInLateFailure(cfg, states + [FailureStep(cfg, s, x)], events + [HandleFailure(x)], newer)
  {
    var s := states[|events|];
    RevisedDatabase(s.db);
    NoLostWork(cfg, states, events, |events|);
    newer :| Outstanding(s, newer);
    NewerIsTheSecond(s.db, newer);
    LateFailureApplies(cfg, s, x);
    RunExtends(cfg, states, events, HandleFailure(x));
  }

  /** A run to such an error and its handling. */
  lemma {:induction false} LateError(cfg: Config, before: seq<Event>, s: Store, x: nat, ev: Event)
    returns (states: seq<Store>, events: seq<Event>, newer: nat)
    requires ValidConfig(cfg) && Reaches(cfg, before, s) && SentBack(s.db)
    requires InRange(s, x) && TaskOf(s, x) == 2
    requires Enabled(s, ev) && Next(cfg, s, ev) == To(s, x, Caught(FatalFault))
    ensures EndsInLateFailure(cfg, states, events, newer)
    ensures events == before + [ev] + [HandleFailure(x)] && states[|before|] == s
    ensures InRange(states[|events| - 1], x) && TaskOf(states[|events| - 1], x) == 2
  {
    var first := ReachedByARun(cfg, before, s);
    var caught := To(s, x, Caught(FatalFault));
    RunExtends(cfg, first, before, ev);
    newer := LateFailure(cfg, first + [caught], before + [ev], x);
    states := first + [caught] + [FailureStep(cfg, caught, x)];
    events := before + [ev] + [HandleFailure(x)];
  }

  /** A late failure after an expired lease: there is a run in which the lease of a
      running GENERATE expires, a second delivery completes the task and the critic
      sends the scenario back, and the first delivery's failure then fails the
      workflow, although a newer GENERATE is outstanding. */
  lemma {:induction false} ExpiredLeaseFailsTheWorkflow(cfg: Config)
    returns (states: seq<Store>, events: seq<Event>, newer: nat)
    requires ValidConfig(cfg)
    ensures EndsInLateFailure(cfg, states, events, newer)
    ensures ExpireLease(TaskOf(states[|events| - 1], events[|events| - 1].x)) in events
    ensures !LeasesOutlive(states, events)
  {
    var before, s, x := RevisionIsReachable(cfg);
    RevisedDatabase(s.db);
    LateCommitIsRefused(cfg, s, x);
    states, events, newer := LateError(cfg, before, s, x, Commit(x, StageCompleted));
    LateCommitNeedsExpiry(cfg, states, events, |before|, x);
  }

  /** Only an expired lease lets a GENERATE run on after its key is claimed. */
  lemma LateCommitNeedsExpiry(cfg: Config, states: seq<Store>, events: seq<Event>, i: nat, x: nat)
    requires Run(cfg, states, events) && i < |states|
    requires InRange(states[i], x) && KindOf(states[i], x).GenerateScenario? && states[i].execs[x].phase.Running?
    requires ExecKey(states[i], x) in states[i].db.claims
    ensures !LeasesOutlive(states, events)
  {
    if LeasesOutlive(states, events) {
      GenerateAndReviewNeverLose(cfg, states, events, i, x);
    }
  }

  lemma {:induction false} CommittedIsReviewed(cfg: Config) returns (events: seq<Event>, s: Store, x: nat)
    requires ValidConfig(cfg)
    ensures Reaches(cfg, events, s) && Quiet(events)
    ensures Ready(cfg, s, UpToReview()) && s.db.scenario == 1 && s.db.row.revisions == 0
    ensures InRange(s, x) && TaskOf(s, x) == 2 && s.execs[x].phase.Committed?
  {
    var e2, s2 := GenerationIsReachable(cfg);
    x := |s2.execs|;
    var e3, s3 := ReviewFollows(cfg, s2);
    ReachOn(cfg, e2, s2, e3, s3);
    events, s := e2 + e3, s3;
  }

  /** A delivery of GENERATE that committed, and was sent back before it released its
      lease. */
  lemma {:induction false} CommittedIsSentBack(cfg: Config) returns (events: seq<Event>, s: Store, x: nat)
    requires ValidConfig(cfg)
    ensures Reaches(cfg, events, s) && Quiet(events)
    ensures Ready(cfg, s, UpToRevision()) && s.db.row.revisions == 1
    ensures InRange(s, x) && TaskOf(s, x) == 2 && s.execs[x].phase.Committed?
  {
    var e3, s3;
    e3, s3, x := CommittedIsReviewed(cfg);
    var e4, s4 := RevisionFollows(cfg, s3);
    ReachOn(cfg, e3, s3, e4, s4);
    DeliveryStays(s3, s4, x);
    events, s := e3 + e4, s4;
  }

  /** A late failure needs no expired lease: there is a run in which no lease expires, a
      GENERATE commits and is sent back, and an error of its release or acknowledgement
      then fails the workflow, although a newer GENERATE is outstanding. */
  lemma {:induction false} LateFailureNeedsNoExpiry(cfg: Config)
    returns (states: seq<Store>, events: seq<Event>, newer: nat)
    requires ValidConfig(cfg)
    ensures EndsInLateFailure(cfg, states, events, newer)
    ensures Quiet(events) && LeasesOutlive(states, events)
  {
    var before, s, x := CommittedIsSentBack(cfg);
    states, events, newer := LateError(cfg, before, s, x, Raise(x, FatalFault));
  }

  // --- A status that is taken back ---

  /** Two deliveries of the first COLLECT, both past the stale check. */
  function Overlapping(): Store {
    Store(Initiate(), [Entry(0, 0, 1, None)], [Exec(0, 1, 2, Proceeding), Exec(0, 1, 2, Proceeding)], map[], [])
  }

  lemma {:induction false} OverlapIsReachable(cfg: Config) returns (events: seq<Event>)
    ensures Reaches(cfg, events, Overlapping()) && Quiet(events)
  {
    var init := Init();
    var queued := init.(queue := [Entry(0, 0, 1, None)]);
    assert Next(cfg, init, Enqueue(0)) == queued;
    var one := queued.(execs := [Exec(0, 1, 0, Loaded)]);
    assert Next(cfg, queued, Receive(0)) == one;
    var two := queued.(execs := [Exec(0, 1, 0, Loaded), Exec(0, 1, 0, Loaded)]);
    assert Next(cfg, one, Receive(0)) == two;
    var half := queued.(execs := [Exec(0, 1, 2, Proceeding), Exec(0, 1, 0, Loaded)]);
    assert Next(cfg, two, Classify(0)) == half;
    assert Next(cfg, half, Classify(1)) == Overlapping();
    events := [];
    ReachOneMore(cfg, [], init, Enqueue(0));
    ReachOneMore(cfg, [] + [Enqueue(0)], queued, Receive(0));
    ReachOneMore(cfg, [] + [Enqueue(0)] + [Receive(0)], one, Receive(0));
    ReachOneMore(cfg, [] + [Enqueue(0)] + [Receive(0)] + [Receive(0)], two, Classify(0));
    ReachOneMore(cfg, [] + [Enqueue(0)] + [Receive(0)] + [Receive(0)] + [Classify(0)], half, Classify(1));
    events := [] + [Enqueue(0)] + [Receive(0)] + [Receive(0)] + [Classify(0)] + [Classify(1)];
  }

  /** The first of them has failed for good and is acknowledged. */
  ghost predicate AckedFailure(s: Store) {
    && s.queue == [Entry(0, 0, 1, Some(2))]
    && |s.db.tasks| == 1 && s.db.tasks[0].kind.Collect? && s.db.tasks[0].status.TaskFailed?
    && s.db.claims == map[] && |s.db.history| >= 1 && s.db.history[0].to.Collecting?
    && s.execs == [Exec(0, 1, 2, Ended), Exec(0, 1, 2, Proceeding)]
    && s.leases == map[]
  }

  lemma {:induction false} FirstFails(cfg: Config) returns (events: seq<Event>, s: Store)
    requires cfg.attempts(Collect) >= 2
    ensures Reaches(cfg, events, s) && Quiet(events) && AckedFailure(s)
  {
    var before := OverlapIsReachable(cfg);
    var start := Overlapping();
    var other := Exec(0, 1, 2, Proceeding);
    var leased := start.(execs := [Exec(0, 1, 2, Leased), other], leases := map[0 := 0]);
    assert Next(cfg, start, Acquire(0)) == leased;
    var caught := leased.(execs := [Exec(0, 1, 2, Caught(FatalFault)), other]);
    assert Next(cfg, leased, Raise(0, FatalFault)) == caught;
    var r := FirstFailure(cfg.maxRevisions, start.db);
    var failed := caught.(db := r.db, execs := [Exec(0, 1, 2, DeadEnd), other]);
    assert Next(cfg, caught, HandleFailure(0)) == failed;
    s := failed.(queue := [Entry(0, 0, 1, Some(2))], execs := [Exec(0, 1, 2, Ended), other], leases := map[]);
    assert Next(cfg, failed, Ack(0)) == s;
    ReachOneMore(cfg, before, start, Acquire(0));
    ReachOneMore(cfg, before + [Acquire(0)], leased, Raise(0, FatalFault));
    ReachOneMore(cfg, before + [Acquire(0)] + [Raise(0, FatalFault)], caught, HandleFailure(0));
    ReachOneMore(cfg, before + [Acquire(0)] + [Raise(0, FatalFault)] + [HandleFailure(0)], failed, Ack(0));
    events := before + [Acquire(0)] + [Raise(0, FatalFault)] + [HandleFailure(0)] + [Ack(0)];
  }

  lemma {:induction false} FirstFailure(maxRevisions: nat, db: Durable) returns (r: Outcome)
    requires db == Initiate()
    ensures r == Worker.FailTask(maxRevisions, db, 0, false) && r.Done?
    ensures |r.db.tasks| == 1 && r.db.tasks[0] == Task(Collect, 1, 1, TaskFailed, 1)
    ensures r.db.claims == map[] && |r.db.history| >= 1 && r.db.history[0].to.Collecting?
  {
    FailureApplies(maxRevisions, db, Collect, false);
    r := Worker.FailTask(maxRevisions, db, 0, false);
  }

  /** The second fails in its turn, with attempts left. */
  lemma {:induction false} SecondTakesBack(cfg: Config, before: seq<Event>, start: Store)
    returns (events: seq<Event>, s: Store)
    requires cfg.attempts(Collect) >= 2 && Reaches(cfg, before, start) && Quiet(before) && AckedFailure(start)
    ensures Reaches(cfg, events, s) && Quiet(events)
    ensures s.queue == start.queue
    ensures |s.db.tasks| == 1 && s.db.tasks[0].status.Dispatched? && s.db.tasks[0].kind.Collect?
    ensures s.db.claims == start.db.claims && s.db.history == start.db.history
  {
    var leased := start.(execs := [start.execs[0], Exec(0, 1, 2, Leased)], leases := map[0 := 1]);
    assert Next(cfg, start, Acquire(1)) == leased;
    var running := leased.(execs := [start.execs[0], Exec(0, 1, 2, Running)]);
    assert Next(cfg, leased, PreCheck(1)) == running;
    var caught := leased.(execs := [start.execs[0], Exec(0, 1, 2, Caught(RetryableFault))]);
    assert Next(cfg, running, Raise(1, RetryableFault)) == caught;
    s := Next(cfg, caught, HandleFailure(1));
    assert Retries(cfg, caught, 1) && s.db == Worker.RetryTask(start.db, 0, 1);
    ReachOneMore(cfg, before, start, Acquire(1));
    ReachOneMore(cfg, before + [Acquire(1)], leased, PreCheck(1));
    ReachOneMore(cfg, before + [Acquire(1)] + [PreCheck(1)], running, Raise(1, RetryableFault));
    ReachOneMore(cfg, before + [Acquire(1)] + [PreCheck(1)] + [Raise(1, RetryableFault)], caught, HandleFailure(1));
    events := before + [Acquire(1)] + [PreCheck(1)] + [Raise(1, RetryableFault)] + [HandleFailure(1)];
  }

  /** An acknowledged entry's task need not stay FAILED: wherever a COLLECT may be
      tried twice there is a run, with no lease expiring, that ends with the entry
      acknowledged, its task DISPATCHED, its key unclaimed, and the worker having
      looked while the workflow was executing the task. */
  lemma {:induction false} AckedTaskIsTakenBack(cfg: Config) returns (states: seq<Store>, events: seq<Event>)
    requires ValidConfig(cfg) && cfg.attempts(Collect) >= 2
    ensures Run(cfg, states, events) && Quiet(events)
    ensures
      var s := states[|events|];
      && |s.queue| == 1 && s.queue[0].acked == Some(2) && s.queue[0].task == 0
      && |s.db.tasks| == 1 && s.db.tasks[0].status.Dispatched? && KeyOf(s.db.tasks[0]) !in s.db.claims
      && StateAt(s.db.history, 2) == ExpectedState(s.db.tasks[0].kind)
  {
    var before, middle := FirstFails(cfg);
    var s;
    events, s := SecondTakesBack(cfg, before, middle);
    states := ReachedByARun(cfg, events, s);
  }
}
