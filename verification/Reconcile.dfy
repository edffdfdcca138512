/** The reconciler: which workflows look stuck, which pattern each of them fits
    best, and what one repair pass does about them. */
module Reconcile {
  import opened WorkflowTypes
  import opened TransitionTable
  import opened Engine

  type Id = string

  /** `attempts(k)` is the retry policy's max_attempts for task type k, and
      `handlers` what the stage handlers store. */
  datatype Config = Config(maxRevisions: nat, attempts: TaskType -> nat, handlers: Handlers)

  /** A GENERATE handler stores the scenario under its task's logical version;
      nothing is assumed of the other handlers. */
  ghost predicate ValidConfig(cfg: Config) {
    && cfg.maxRevisions > 0
    && (forall k :: cfg.attempts(k) >= 1)
    && (forall v: nat :: cfg.handlers(GenerateScenario, v) == Some(v))
  }

  datatype Pattern = RP001 | RP002 | RP003 | RP004

  /** `row` is the workflow row as it was when the candidate was collected. */
  datatype Candidate = Candidate(id: Id, row: Row, pattern: Pattern, expected: Option<TaskType>)

  datatype Report = Report(id: Id, action: Pattern, repaired: bool)

  type World = map<Id, Durable>

  function Priority(p: Pattern): nat {
    match p
    case RP003 => 0
    case RP001 => 1
    case RP002 => 2
    case RP004 => 3
  }

  // --- Evaluating one workflow ---

  /** Position of the most recently created task of a type. */
  function LatestOfKind(tasks: seq<Task>, kind: TaskType): (r: Option<nat>)
    ensures r.Some? ==> r.value < |tasks| && tasks[r.value].kind == kind
    ensures r.Some? ==> forall i :: r.value < i < |tasks| ==> tasks[i].kind != kind
    ensures r.None? ==> forall i :: 0 <= i < |tasks| ==> tasks[i].kind != kind
  {
    if |tasks| == 0 then None
    else if tasks[|tasks| - 1].kind == kind then Some(|tasks| - 1)
    else LatestOfKind(tasks[..|tasks| - 1], kind)
  }

  predicate HasUnpublished(db: Durable) {
    exists o :: 0 <= o < |db.outbox| && !db.outbox[o].published
  }

  predicate HasUnpublishedOf(db: Durable, kind: TaskType) {
    exists o :: 0 <= o < |db.outbox| && !db.outbox[o].published
                && db.outbox[o].task < |db.tasks| && db.tasks[db.outbox[o].task].kind == kind
  }

  function Rp001ExpectedTask(db: Durable): Option<TaskType> {
    if !db.row.state.GeneratingScenario? then ExpectedOutboxTask(db.row.state)
    else
      var latest := LatestOfKind(db.tasks, GenerateScenario);
      if latest.None? || InFlight(db.tasks[latest.value].status) || HasUnpublishedOf(db, GenerateScenario) then None
      else Some(GenerateScenario)
  }

  /** Seconds after which a workflow at rest in `s` counts as overdue. */
  function StuckThreshold(s: WorkflowState): Option<real> {
    if Executing(s) then Some(1800.0)
    else if Transient(s) then Some(3600.0)
    else None
  }

  predicate Overdue(s: WorkflowState, elapsed: real) {
    StuckThreshold(s).Some? && elapsed > StuckThreshold(s).value
  }

  function LatestExpected(db: Durable, expected: Option<TaskType>): (r: Option<nat>)
    ensures r.Some? ==> expected.Some? && r.value < |db.tasks| && db.tasks[r.value].kind == expected.value
  {
    if expected.Some? then LatestOfKind(db.tasks, expected.value) else None
  }

  predicate Stuck(db: Durable, expected: Option<TaskType>, elapsed: real) {
    var latest := LatestExpected(db, expected);
    Overdue(db.row.state, elapsed) && !(latest.Some? && InFlight(db.tasks[latest.value].status))
  }

  predicate Scanned(s: WorkflowState) {
    s.Collecting? || s.Collected? || s.TopicSelected? || s.ScenarioGenerated? || s.GeneratingScenario?
  }

  /** First sweep: transient workflows that are overdue. */
  function StuckCandidate(id: Id, db: Durable, elapsed: real): Option<Candidate> {
    var expected := Rp001ExpectedTask(db);
    if Transient(db.row.state) && Stuck(db, expected, elapsed)
    then Some(Candidate(id, db.row, RP003, expected)) else None
  }

  /** Second sweep: an outbox row still to be published, or none where one is due. */
  function OutboxCandidate(id: Id, db: Durable): Option<Candidate> {
    if !Scanned(db.row.state) then None
    else if HasUnpublished(db) then Some(Candidate(id, db.row, RP002, None))
    else if Rp001ExpectedTask(db).Some? then Some(Candidate(id, db.row, RP001, Rp001ExpectedTask(db)))
    else None
  }

  /** Third sweep: an unpublished outbox row left behind by a finished workflow. */
  function LeftoverCandidate(id: Id, db: Durable): Option<Candidate> {
    if Terminal(db.row.state) && HasUnpublished(db) then Some(Candidate(id, db.row, RP004, None)) else None
  }

  /** A candidate that some sweep produces for this workflow. */
  predicate Justified(c: Candidate, db: Durable, elapsed: real) {
    || StuckCandidate(c.id, db, elapsed) == Some(c)
    || OutboxCandidate(c.id, db) == Some(c)
    || LeftoverCandidate(c.id, db) == Some(c)
  }

  // --- Deduplication ---

  ghost predicate DistinctIds(cs: seq<Candidate>) {
    forall i, j :: 0 <= i < j < |cs| ==> cs[i].id != cs[j].id
  }

  /** Position of a workflow in the insertion-ordered dictionary. */
  function Find(cs: seq<Candidate>, id: Id): (r: Option<nat>)
    ensures r.Some? ==> r.value < |cs| && cs[r.value].id == id
    ensures r.None? ==> forall i :: 0 <= i < |cs| ==> cs[i].id != id
  {
    if |cs| == 0 then None
    else if cs[|cs| - 1].id == id then Some(|cs| - 1)
    else Find(cs[..|cs| - 1], id)
  }

  function Admit(byId: seq<Candidate>, c: Candidate): seq<Candidate> {
    var existing := Find(byId, c.id);
    if existing.None? then byId + [c]
    else if Priority(c.pattern) < Priority(byId[existing.value].pattern) then byId[existing.value := c]
    else byId
  }

  function Deduped(cs: seq<Candidate>): seq<Candidate> {
    if |cs| == 0 then [] else Admit(Deduped(cs[..|cs| - 1]), cs[|cs| - 1])
  }

  /** The representative of a workflow: the first of its candidates of the best priority. */
  function Best(cs: seq<Candidate>, id: Id): Option<Candidate> {
    if |cs| == 0 then None
    else
      var best := Best(cs[..|cs| - 1], id);
      var c := cs[|cs| - 1];
      if c.id == id && (best.None? || Priority(c.pattern) < Priority(best.value.pattern)) then Some(c) else best
  }

  lemma {:induction false} BestIsBest(cs: seq<Candidate>, id: Id)
    ensures Best(cs, id).Some? ==> Best(cs, id).value in cs && Best(cs, id).value.id == id
    ensures forall c :: c in cs && c.id == id ==>
      Best(cs, id).Some? && Priority(Best(cs, id).value.pattern) <= Priority(c.pattern)
  {
    if |cs| > 0 {
      BestIsBest(cs[..|cs| - 1], id);
      assert cs == cs[..|cs| - 1] + [cs[|cs| - 1]];
    }
  }

  /** Position k holds the first of a workflow's candidates of the best priority. */
  ghost predicate FirstOfTheBest(cs: seq<Candidate>, k: nat, id: Id) {
    && k < |cs| && cs[k].id == id
    && (forall i :: 0 <= i < |cs| && cs[i].id == id ==> Priority(cs[k].pattern) <= Priority(cs[i].pattern))
    && (forall i :: 0 <= i < k && cs[i].id == id ==> Priority(cs[k].pattern) < Priority(cs[i].pattern))
  }

  lemma {:induction false} BestIsFirst(cs: seq<Candidate>, id: Id) returns (k: nat)
    requires Best(cs, id).Some?
    ensures FirstOfTheBest(cs, k, id) && cs[k] == Best(cs, id).value
  {
    var n := |cs| - 1;
    var before, c := cs[..n], cs[n];
    BestIsBest(before, id);
    assert cs == before + [c];
    if Best(before, id).Some? && Best(cs, id) == Best(before, id) {
      k := BestIsFirst(before, id);
    } else {
      k := n;
      forall i | 0 <= i < n && cs[i].id == id ensures Priority(c.pattern) < Priority(cs[i].pattern) {
        assert before[i] in before;
      }
    }
  }

  /** Exactly the best candidate of each workflow, once. */
  ghost predicate HoldsTheBest(byId: seq<Candidate>, cs: seq<Candidate>) {
    && DistinctIds(byId)
    && (forall i :: 0 <= i < |byId| ==> Best(cs, byId[i].id) == Some(byId[i]))
    && (forall c :: c in cs ==> Find(byId, c.id).Some?)
  }

  /** Deduplication keeps exactly the best candidate of each workflow, once. */
  lemma {:induction false} DedupedKeepsTheBest(cs: seq<Candidate>)
    ensures HoldsTheBest(Deduped(cs), cs)
  {
    if |cs| > 0 {
      var shorter, c := cs[..|cs| - 1], cs[|cs| - 1];
      DedupedKeepsTheBest(shorter);
      AdmitKeepsTheBest(Deduped(shorter), shorter, c);
      assert cs == shorter + [c];
    }
  }

  lemma {:induction false} AdmitKeepsTheBest(byId: seq<Candidate>, cs: seq<Candidate>, c: Candidate)
    requires HoldsTheBest(byId, cs)
    ensures HoldsTheBest(Admit(byId, c), cs + [c])
  {
    forall i | 0 <= i < |Admit(byId, c)| ensures Best(cs + [c], Admit(byId, c)[i].id) == Some(Admit(byId, c)[i]) {
      AdmittedIsBest(byId, cs, c, i);
    }
    forall d | d in cs + [c] ensures Find(Admit(byId, c), d.id).Some? {
      AdmitCovers(byId, cs, c, d);
    }
  }

  lemma {:induction false} AdmittedIsBest(byId: seq<Candidate>, cs: seq<Candidate>, c: Candidate, i: nat)
    requires HoldsTheBest(byId, cs) && i < |Admit(byId, c)|
    ensures Best(cs + [c], Admit(byId, c)[i].id) == Some(Admit(byId, c)[i])
  {
    assert (cs + [c])[..|cs|] == cs;
    if i < |byId| {
      assert Best(cs, byId[i].id) == Some(byId[i]);
    } else {
      BestIsBest(cs, c.id);
    }
  }

  lemma AdmitCovers(byId: seq<Candidate>, cs: seq<Candidate>, c: Candidate, d: Candidate)
    requires HoldsTheBest(byId, cs) && d in cs + [c]
    ensures Find(Admit(byId, c), d.id).Some?
  {
    var next := Admit(byId, c);
    var k := Find(byId, d.id);
    if k.Some? {
      assert next[k.value].id == d.id;
    } else {
      assert next[|byId|] == c;
    }
  }

  function Ids(cs: seq<Candidate>): (r: seq<Id>)
    ensures |r| == |cs| && forall i :: 0 <= i < |cs| ==> r[i] == cs[i].id
  {
    seq(|cs|, i requires 0 <= i < |cs| => cs[i].id)
  }

  /** The workflows in the order in which they first appear. */
  function FirstIds(cs: seq<Candidate>): seq<Id> {
    if |cs| == 0 then []
    else
      var before := FirstIds(cs[..|cs| - 1]);
      if cs[|cs| - 1].id in before then before else before + [cs[|cs| - 1].id]
  }

  /** The dictionary keeps its order: a better candidate takes its workflow's place. */
  lemma {:induction false} DedupedKeepsOrder(cs: seq<Candidate>)
    ensures Ids(Deduped(cs)) == FirstIds(cs)
  {
    if |cs| > 0 {
      DedupedKeepsOrder(cs[..|cs| - 1]);
      AdmitKeepsOrder(Deduped(cs[..|cs| - 1]), cs[|cs| - 1]);
    }
  }

  lemma AdmitKeepsOrder(byId: seq<Candidate>, c: Candidate)
    ensures Ids(Admit(byId, c)) == if c.id in Ids(byId) then Ids(byId) else Ids(byId) + [c.id]
  {
    var existing := Find(byId, c.id);
    if existing.Some? {
      assert Ids(byId)[existing.value] == c.id;
      assert Ids(Admit(byId, c)) == Ids(byId);
    } else {
      assert Ids(byId + [c]) == Ids(byId) + [c.id];
    }
  }

  lemma {:induction false} FirstIdsAppend(a: seq<Candidate>, b: seq<Candidate>)
    ensures FirstIds(a) <= FirstIds(a + b)
    decreases |b|
  {
    if |b| == 0 {
      assert a + b == a;
    } else {
      FirstIdsAppend(a, b[..|b| - 1]);
      assert (a + b)[..|a + b| - 1] == a + b[..|b| - 1];
    }
  }

  lemma {:induction false} FirstIdsCover(cs: seq<Candidate>, id: Id)
    ensures id in FirstIds(cs) <==> exists c :: c in cs && c.id == id
  {
    if |cs| > 0 {
      FirstIdsCover(cs[..|cs| - 1], id);
      assert cs == cs[..|cs| - 1] + [cs[|cs| - 1]];
    }
  }

  /** The deduplication loop over an insertion-ordered dictionary. */
  method DedupeCandidates(candidates: seq<Candidate>) returns (byId: seq<Candidate>)
    ensures DistinctIds(byId)
    ensures Ids(byId) == FirstIds(candidates)
    ensures forall d :: d in byId ==> Best(candidates, d.id) == Some(d)
    ensures forall c :: c in candidates ==> exists d :: d in byId && d.id == c.id
  {
    byId := [];
    for n := 0 to |candidates|
      invariant byId == Deduped(candidates[..n])
    {
      var candidate := candidates[n];
      assert candidates[..n + 1][..n] == candidates[..n];
      var existing := Find(byId, candidate.id);
      if existing.None? {
        byId := byId + [candidate];
      } else if Priority(candidate.pattern) < Priority(byId[existing.value].pattern) {
        byId := byId[existing.value := candidate];
      }
    }
    assert candidates[..|candidates|] == candidates;
    DedupedKeepsTheBest(candidates);
    DedupedKeepsOrder(candidates);
    forall c | c in candidates ensures exists d :: d in byId && d.id == c.id {
      assert byId[Find(byId, c.id).value] in byId;
    }
  }

  ghost predicate AllJustified(cs: seq<Candidate>, world: World, elapsed: map<Id, real>)
    requires elapsed.Keys == world.Keys
  {
    forall c :: c in cs ==> c.id in world && Justified(c, world[c.id], elapsed[c.id])
  }

  ghost predicate Covered(cs: seq<Candidate>, id: Id) {
    exists c :: c in cs && c.id == id
  }

  ghost predicate AllStuck(cs: seq<Candidate>) {
    forall c :: c in cs ==> c.pattern.RP003?
  }

  ghost predicate NoneStuck(cs: seq<Candidate>) {
    forall c :: c in cs ==> !c.pattern.RP003?
  }

  /** What a look at each row in turn finds, in the order of the rows. */
  function Found(rows: seq<Id>, find: Id -> Option<Candidate>): seq<Candidate> {
    if |rows| == 0 then []
    else
      var c := find(rows[|rows| - 1]);
      Found(rows[..|rows| - 1], find) + if c.Some? then [c.value] else []
  }

  lemma FoundOfNext(rows: seq<Id>, find: Id -> Option<Candidate>, i: nat)
    requires i < |rows|
    ensures Found(rows[..i + 1], find)
         == Found(rows[..i], find) + if find(rows[i]).Some? then [find(rows[i]).value] else []
  {
    assert rows[..i + 1][..i] == rows[..i];
  }

  /** A sweep looks at its rows one by one, in their order. */
  lemma {:induction false} FoundSplits(a: seq<Id>, b: seq<Id>, find: Id -> Option<Candidate>)
    ensures Found(a + b, find) == Found(a, find) + Found(b, find)
    ensures |a| == 1 ==> Found(a, find) == if find(a[0]).Some? then [find(a[0]).value] else []
    decreases |b|
  {
    if |b| == 0 {
      assert a + b == a;
    } else {
      FoundSplits(a, b[..|b| - 1], find);
      assert (a + b)[..|a + b| - 1] == a + b[..|b| - 1];
    }
  }

  function StuckFinder(world: World, elapsed: map<Id, real>): Id -> Option<Candidate> {
    id => if id in world && id in elapsed then StuckCandidate(id, world[id], elapsed[id]) else None
  }

  function OutboxFinder(world: World): Id -> Option<Candidate> {
    id => if id in world then OutboxCandidate(id, world[id]) else None
  }

  function LeftoverFinder(world: World): Id -> Option<Candidate> {
    id => if id in world then LeftoverCandidate(id, world[id]) else None
  }

  /** The order in which the three sweeps first come upon the workflows. */
  function SweepOrder(world: World, elapsed: map<Id, real>, overdueRows: seq<Id>, scannedRows: seq<Id>,
                      unpublished: seq<Id>): seq<Id> {
    FirstIds(Found(overdueRows, StuckFinder(world, elapsed)) + Found(scannedRows, OutboxFinder(world))
             + Found(unpublished, LeftoverFinder(world)))
  }

  lemma {:induction false} FoundMeans(rows: seq<Id>, find: Id -> Option<Candidate>)
    ensures forall c :: c in Found(rows, find) ==> exists id :: id in rows && find(id) == Some(c)
    ensures forall id :: id in rows && find(id).Some? ==> find(id).value in Found(rows, find)
  {
    if |rows| > 0 {
      FoundMeans(rows[..|rows| - 1], find);
      assert rows == rows[..|rows| - 1] + [rows[|rows| - 1]];
    }
  }

  lemma StuckFound(world: World, elapsed: map<Id, real>, rows: seq<Id>)
    requires elapsed.Keys == world.Keys
    requires forall id :: id in rows ==> id in world
    ensures
      var cs := Found(rows, StuckFinder(world, elapsed));
      && AllJustified(cs, world, elapsed) && AllStuck(cs)
      && forall id :: id in rows && StuckCandidate(id, world[id], elapsed[id]).Some? ==>
           StuckCandidate(id, world[id], elapsed[id]).value in cs
  {
    var find := StuckFinder(world, elapsed);
    FoundMeans(rows, find);
    forall c | c in Found(rows, find)
      ensures c.id in world && Justified(c, world[c.id], elapsed[c.id]) && c.pattern.RP003?
    {
      var id :| id in rows && find(id) == Some(c);
    }
    forall id | id in rows && StuckCandidate(id, world[id], elapsed[id]).Some?
      ensures StuckCandidate(id, world[id], elapsed[id]).value in Found(rows, find)
    {
      assert find(id).Some?;
    }
  }

  lemma OutboxFound(world: World, elapsed: map<Id, real>, rows: seq<Id>)
    requires elapsed.Keys == world.Keys
    requires forall id :: id in rows ==> id in world
    ensures
      var cs := Found(rows, OutboxFinder(world));
      && AllJustified(cs, world, elapsed) && NoneStuck(cs)
      && forall id :: id in rows && OutboxCandidate(id, world[id]).Some? ==>
           OutboxCandidate(id, world[id]).value in cs
  {
    var find := OutboxFinder(world);
    FoundMeans(rows, find);
    forall c | c in Found(rows, find)
      ensures c.id in world && Justified(c, world[c.id], elapsed[c.id]) && !c.pattern.RP003?
    {
      var id :| id in rows && find(id) == Some(c);
    }
    forall id | id in rows && OutboxCandidate(id, world[id]).Some?
      ensures OutboxCandidate(id, world[id]).value in Found(rows, find)
    {
      assert find(id).Some?;
    }
  }

  method SweepStuck(world: World, elapsed: map<Id, real>, rows: seq<Id>) returns (cs: seq<Candidate>)
    requires elapsed.Keys == world.Keys
    requires forall id :: id in rows ==> id in world
    ensures cs == Found(rows, StuckFinder(world, elapsed))
  {
    cs := [];
    for i := 0 to |rows|
      invariant cs == Found(rows[..i], StuckFinder(world, elapsed))
    {
      FoundOfNext(rows, StuckFinder(world, elapsed), i);
      var c := StuckCandidate(rows[i], world[rows[i]], elapsed[rows[i]]);
      if c.Some? {
        cs := cs + [c.value];
      }
    }
    assert rows[..|rows|] == rows;
  }

  method SweepOutbox(world: World, rows: seq<Id>, found: seq<Candidate>) returns (cs: seq<Candidate>)
    requires forall id :: id in rows ==> id in world
    ensures cs == found + Found(rows, OutboxFinder(world))
  {
    cs := found;
    for i := 0 to |rows|
      invariant cs == found + Found(rows[..i], OutboxFinder(world))
    {
      FoundOfNext(rows, OutboxFinder(world), i);
      var c := OutboxCandidate(rows[i], world[rows[i]]);
      if c.Some? {
        cs := cs + [c.value];
      }
    }
    assert rows[..|rows|] == rows;
  }

  /** A sweep that leaves out the workflows it has. */
  function Extended(found: seq<Candidate>, rows: seq<Id>, find: Id -> Option<Candidate>): seq<Candidate> {
    if |rows| == 0 then found
    else
      var cs, c := Extended(found, rows[..|rows| - 1], find), find(rows[|rows| - 1]);
      if c.Some? && c.value.id !in Ids(cs) then cs + [c.value] else cs
  }

  method SweepLeftovers(world: World, rows: seq<Id>, found: seq<Candidate>) returns (cs: seq<Candidate>)
    requires forall id :: id in rows && id in world ==> HasUnpublished(world[id])
    ensures cs == Extended(found, rows, LeftoverFinder(world))
  {
    cs := found;
    var seen := set c | c in found :: c.id;
    for i := 0 to |rows|
      invariant cs == Extended(found, rows[..i], LeftoverFinder(world))
      invariant seen == set c | c in cs :: c.id
    {
      var id := rows[i];
      assert rows[..i + 1][..i] == rows[..i];
      SeenAreIds(cs, id);
      if id !in seen && id in world && Terminal(world[id].row.state) {
        cs := cs + [Candidate(id, world[id].row, RP004, None)];
        seen := seen + {id};
      }
    }
    assert rows[..|rows|] == rows;
  }

  lemma SeenAreIds(cs: seq<Candidate>, id: Id)
    ensures id in Ids(cs) <==> id in set c | c in cs :: c.id
  {
    if id in Ids(cs) {
      var i :| 0 <= i < |cs| && Ids(cs)[i] == id;
      assert cs[i] in cs;
    }
    forall c | c in cs && c.id == id ensures id in Ids(cs) {
      var i :| 0 <= i < |cs| && cs[i] == c;
      assert Ids(cs)[i] == id;
    }
  }

  /** The third sweep only adds, each finished workflow once and none that was found
      before. */
  lemma {:induction false} LeftoversMean(world: World, elapsed: map<Id, real>, rows: seq<Id>, found: seq<Candidate>)
    requires elapsed.Keys == world.Keys && AllJustified(found, world, elapsed)
    ensures
      var cs := Extended(found, rows, LeftoverFinder(world));
      && found <= cs && AllJustified(cs, world, elapsed) && NoneStuck(cs[|found|..])
      && forall i, j :: |found| <= j < |cs| && 0 <= i < j ==> cs[i].id != cs[j].id
  {
    if |rows| > 0 {
      LeftoversMean(world, elapsed, rows[..|rows| - 1], found);
      var find := LeftoverFinder(world);
      var before, c := Extended(found, rows[..|rows| - 1], find), find(rows[|rows| - 1]);
      if c.Some? {
        OneMore(before, c.value, |found|);
      }
    }
  }

  /** And it adds them in the order of its rows. */
  lemma {:induction false} ExtendedInOrder(found: seq<Candidate>, rows: seq<Id>, find: Id -> Option<Candidate>)
    ensures FirstIds(Extended(found, rows, find)) == FirstIds(found + Found(rows, find))
  {
    if |rows| == 0 {
      assert found + Found(rows, find) == found;
    } else {
      var before, c := Extended(found, rows[..|rows| - 1], find), find(rows[|rows| - 1]);
      ExtendedInOrder(found, rows[..|rows| - 1], find);
      FoundNext(before, found, rows, find, |rows| - 1);
      assert rows[..|rows| - 1 + 1] == rows;
      if c.Some? {
        SeenAreIds(before, c.value.id);
        FirstIdsCover(before, c.value.id);
      }
    }
  }

  lemma OneMore(cs: seq<Candidate>, c: Candidate, n: nat)
    requires n <= |cs|
    ensures (cs + [c])[n..] == cs[n..] + [c]
    ensures c.id !in Ids(cs) ==> forall i :: 0 <= i < |cs| ==> cs[i].id != c.id
  {
    forall i | 0 <= i < |cs| && cs[i].id == c.id ensures c.id in Ids(cs) {
      assert Ids(cs)[i] == c.id;
    }
  }

  /** One more row of a sweep that leaves out the workflows it has. */
  lemma FoundNext(cs: seq<Candidate>, found: seq<Candidate>, rows: seq<Id>, find: Id -> Option<Candidate>, i: nat)
    requires i < |rows| && FirstIds(cs) == FirstIds(found + Found(rows[..i], find))
    ensures
      var c := find(rows[i]);
      FirstIds(found + Found(rows[..i + 1], find)) ==
      if c.None? || c.value.id in FirstIds(cs) then FirstIds(cs) else FirstIds(cs + [c.value])
  {
    var c, before := find(rows[i]), found + Found(rows[..i], find);
    FoundOfNext(rows, find, i);
    if c.Some? {
      assert found + Found(rows[..i + 1], find) == before + [c.value];
      assert (before + [c.value])[..|before|] == before && (cs + [c.value])[..|cs|] == cs;
    } else {
      assert found + Found(rows[..i + 1], find) == before;
    }
  }

  /** The workflows that the sweeps are to find. */
  predicate Due(
    world: World, elapsed: map<Id, real>, overdueRows: seq<Id>, scannedRows: seq<Id>, unpublished: seq<Id>, id: Id)
    requires elapsed.Keys == world.Keys
  {
    id in world &&
    (|| (id in overdueRows && StuckCandidate(id, world[id], elapsed[id]).Some?)
     || (id in scannedRows && OutboxCandidate(id, world[id]).Some?)
     || (id in unpublished && Terminal(world[id].row.state)))
  }

  method Sweep(world: World, elapsed: map<Id, real>, overdueRows: seq<Id>, scannedRows: seq<Id>, unpublished: seq<Id>)
    returns (cs: seq<Candidate>, n: nat)
    requires elapsed.Keys == world.Keys
    requires forall id :: id in overdueRows || id in scannedRows ==> id in world
    requires forall id :: id in unpublished && id in world ==> HasUnpublished(world[id])
    ensures AllJustified(cs, world, elapsed)
    ensures n <= |cs| && AllStuck(cs[..n]) && NoneStuck(cs[n..])
    ensures FirstIds(cs) == SweepOrder(world, elapsed, overdueRows, scannedRows, unpublished)
    ensures forall id :: id in overdueRows && StuckCandidate(id, world[id], elapsed[id]).Some? ==>
      StuckCandidate(id, world[id], elapsed[id]).value in cs
    ensures forall id :: Due(world, elapsed, overdueRows, scannedRows, unpublished, id) ==> Covered(cs, id)
  {
    var stuck := SweepStuck(world, elapsed, overdueRows);
    var scanned := SweepOutbox(world, scannedRows, stuck);
    SweepsAreJustified(world, elapsed, overdueRows, scannedRows);
    cs := SweepLeftovers(world, unpublished, scanned);
    LeftoversMean(world, elapsed, unpublished, scanned);
    ExtendedInOrder(scanned, unpublished, LeftoverFinder(world));
    n := |stuck|;
    SweepsAreOrdered(scanned, cs, n);
    SweepsCover(world, elapsed, overdueRows, scannedRows, cs);
    LeftoversCovered(world, unpublished, scanned, cs);
  }

  lemma SweepsAreJustified(world: World, elapsed: map<Id, real>, overdueRows: seq<Id>, scannedRows: seq<Id>)
    requires elapsed.Keys == world.Keys
    requires forall id :: id in overdueRows || id in scannedRows ==> id in world
    ensures
      var stuck, scanned := Found(overdueRows, StuckFinder(world, elapsed)), Found(scannedRows, OutboxFinder(world));
      AllJustified(stuck + scanned, world, elapsed) && AllStuck(stuck) && NoneStuck(scanned)
  {
    StuckFound(world, elapsed, overdueRows);
    OutboxFound(world, elapsed, scannedRows);
  }

  lemma SweepsAreOrdered(scanned: seq<Candidate>, cs: seq<Candidate>, n: nat)
    requires n <= |scanned| && AllStuck(scanned[..n]) && NoneStuck(scanned[n..])
    requires scanned <= cs && NoneStuck(cs[|scanned|..])
    ensures AllStuck(cs[..n]) && NoneStuck(cs[n..])
  {
    assert cs[..n] == scanned[..n] && cs[n..] == scanned[n..] + cs[|scanned|..];
  }

  lemma SweepsCover(
    world: World, elapsed: map<Id, real>, overdueRows: seq<Id>, scannedRows: seq<Id>, cs: seq<Candidate>)
    requires elapsed.Keys == world.Keys
    requires forall id :: id in overdueRows || id in scannedRows ==> id in world
    requires Found(overdueRows, StuckFinder(world, elapsed)) + Found(scannedRows, OutboxFinder(world)) <= cs
    ensures forall id :: id in overdueRows && StuckCandidate(id, world[id], elapsed[id]).Some? ==>
      StuckCandidate(id, world[id], elapsed[id]).value in cs && Covered(cs, id)
    ensures forall id :: id in scannedRows && OutboxCandidate(id, world[id]).Some? ==> Covered(cs, id)
  {
    PrefixIsIn(Found(overdueRows, StuckFinder(world, elapsed)) + Found(scannedRows, OutboxFinder(world)), cs);
    StuckCovered(world, elapsed, overdueRows, cs);
    OutboxCovered(world, elapsed, scannedRows, cs);
  }

  lemma {:induction false} LeftoversCovered(
    world: World, rows: seq<Id>, found: seq<Candidate>, cs: seq<Candidate>)
    requires forall id :: id in rows && id in world ==> HasUnpublished(world[id])
    requires FirstIds(cs) == FirstIds(found + Found(rows, LeftoverFinder(world)))
    ensures forall id :: id in rows && id in world && Terminal(world[id].row.state) ==> Covered(cs, id)
  {
    var find := LeftoverFinder(world);
    FoundMeans(rows, find);
    forall id | id in rows && id in world && Terminal(world[id].row.state) ensures Covered(cs, id) {
      var c := find(id).value;
      assert c in found + Found(rows, find);
      FirstIdsCover(found + Found(rows, find), id);
      FirstIdsCover(cs, id);
    }
  }

  lemma StuckCovered(world: World, elapsed: map<Id, real>, rows: seq<Id>, cs: seq<Candidate>)
    requires elapsed.Keys == world.Keys && forall id :: id in rows ==> id in world
    requires forall c :: c in Found(rows, StuckFinder(world, elapsed)) ==> c in cs
    ensures forall id :: id in rows && StuckCandidate(id, world[id], elapsed[id]).Some? ==>
      StuckCandidate(id, world[id], elapsed[id]).value in cs && Covered(cs, id)
  {
    StuckFound(world, elapsed, rows);
    forall id | id in rows && StuckCandidate(id, world[id], elapsed[id]).Some? ensures Covered(cs, id) {
      CoveredBy(cs, StuckCandidate(id, world[id], elapsed[id]).value);
    }
  }

  lemma OutboxCovered(world: World, elapsed: map<Id, real>, rows: seq<Id>, cs: seq<Candidate>)
    requires elapsed.Keys == world.Keys && forall id :: id in rows ==> id in world
    requires forall c :: c in Found(rows, OutboxFinder(world)) ==> c in cs
    ensures forall id :: id in rows && OutboxCandidate(id, world[id]).Some? ==> Covered(cs, id)
  {
    OutboxFound(world, elapsed, rows);
    forall id | id in rows && OutboxCandidate(id, world[id]).Some? ensures Covered(cs, id) {
      CoveredBy(cs, OutboxCandidate(id, world[id]).value);
    }
  }

  lemma PrefixIsIn(a: seq<Candidate>, b: seq<Candidate>)
    requires a <= b
    ensures forall c :: c in a ==> c in b
  {
  }

  lemma CoveredBy(cs: seq<Candidate>, c: Candidate)
    requires c in cs
    ensures Covered(cs, c.id)
  {
  }

  /** The best candidate of a stuck workflow says that it is stuck. */
  lemma StuckComesFirst(cs: seq<Candidate>, d: Candidate, stuck: Candidate)
    requires Best(cs, d.id) == Some(d)
    requires stuck in cs && stuck.id == d.id && stuck.pattern.RP003?
    ensures d.pattern.RP003?
  {
    BestIsBest(cs, d.id);
  }

  /** The three sweeps over the rows that the queries returned, deduplicated and
      cut to the batch size; `elapsed` is the time since each row was updated.
      Every candidate is justified by its workflow, a stuck workflow is reported as
      stuck and comes before those that are not, no workflow appears twice, the batch
      is filled in the order of the sweeps, and unless it is full no workflow that is
      due is left out. */
  method CollectCandidates(world: World, elapsed: map<Id, real>, overdueRows: seq<Id>, scannedRows: seq<Id>,
                           unpublished: seq<Id>, batchSize: nat)
    returns (result: seq<Candidate>)
    requires elapsed.Keys == world.Keys
    requires forall id :: id in overdueRows || id in scannedRows ==> id in world
    requires forall id :: id in unpublished && id in world ==> HasUnpublished(world[id])
    ensures |result| <= batchSize && DistinctIds(result)
    ensures AllJustified(result, world, elapsed)
    ensures forall c :: c in result && c.id in overdueRows && StuckCandidate(c.id, world[c.id], elapsed[c.id]).Some? ==>
      c.pattern.RP003?
    ensures forall i, j :: 0 <= i < j < |result| && result[j].pattern.RP003? ==> result[i].pattern.RP003?
    ensures
      var order := SweepOrder(world, elapsed, overdueRows, scannedRows, unpublished);
      Ids(result) == if |order| >= batchSize then order[..batchSize] else order
    ensures |result| < batchSize ==>
      forall id :: Due(world, elapsed, overdueRows, scannedRows, unpublished, id) ==> Covered(result, id)
  {
    var candidates, n := Sweep(world, elapsed, overdueRows, scannedRows, unpublished);
    var deduped := DedupeCandidates(candidates);
    BestAreJustified(world, elapsed, overdueRows, candidates, deduped);
    CoverageSurvives(candidates, deduped);
    StuckComeFirst(candidates, n, deduped);
    BatchKeeps(deduped, batchSize);
    result := if |deduped| <= batchSize then deduped else deduped[..batchSize];
  }

  lemma BatchKeeps(deduped: seq<Candidate>, batchSize: nat)
    ensures
      var batch := if |deduped| <= batchSize then deduped else deduped[..batchSize];
      && (forall c :: c in batch ==> c in deduped)
      && Ids(batch) == if |deduped| >= batchSize then Ids(deduped)[..batchSize] else Ids(deduped)
  {
  }

  lemma {:induction false} BestAreJustified(
    world: World, elapsed: map<Id, real>, overdueRows: seq<Id>, cs: seq<Candidate>, deduped: seq<Candidate>)
    requires elapsed.Keys == world.Keys && AllJustified(cs, world, elapsed)
    requires forall id :: id in overdueRows ==> id in world
    requires forall id :: id in overdueRows && StuckCandidate(id, world[id], elapsed[id]).Some? ==>
      StuckCandidate(id, world[id], elapsed[id]).value in cs
    requires forall d :: d in deduped ==> Best(cs, d.id) == Some(d)
    ensures AllJustified(deduped, world, elapsed)
    ensures forall d :: d in deduped && d.id in overdueRows ==>
      StuckCandidate(d.id, world[d.id], elapsed[d.id]).Some? ==> d.pattern.RP003?
  {
    forall d | d in deduped
      ensures d.id in world && Justified(d, world[d.id], elapsed[d.id])
      ensures d.id in overdueRows && StuckCandidate(d.id, world[d.id], elapsed[d.id]).Some? ==> d.pattern.RP003?
    {
      BestIsBest(cs, d.id);
      if d.id in overdueRows && StuckCandidate(d.id, world[d.id], elapsed[d.id]).Some? {
        StuckComesFirst(cs, d, StuckCandidate(d.id, world[d.id], elapsed[d.id]).value);
      }
    }
  }

  /** The stuck workflows, which were found first, come first. */
  lemma {:induction false} StuckComeFirst(cs: seq<Candidate>, n: nat, deduped: seq<Candidate>)
    requires n <= |cs| && AllStuck(cs[..n]) && NoneStuck(cs[n..])
    requires Ids(deduped) == FirstIds(cs) && forall d :: d in deduped ==> Best(cs, d.id) == Some(d)
    ensures forall i, j :: 0 <= i < j < |deduped| && deduped[j].pattern.RP003? ==> deduped[i].pattern.RP003?
  {
    var stuck := cs[..n];
    assert cs == stuck + cs[n..];
    FirstIdsAppend(stuck, cs[n..]);
    forall k | 0 <= k < |deduped| ensures deduped[k].pattern.RP003? <==> k < |FirstIds(stuck)| {
      StuckIsInFront(cs, n, deduped, k);
    }
  }

  lemma {:induction false} StuckIsInFront(cs: seq<Candidate>, n: nat, deduped: seq<Candidate>, k: nat)
    requires n <= |cs| && AllStuck(cs[..n]) && NoneStuck(cs[n..]) && k < |deduped|
    requires Ids(deduped) == FirstIds(cs) && Best(cs, deduped[k].id) == Some(deduped[k])
    requires FirstIds(cs[..n]) <= FirstIds(cs)
    ensures deduped[k].pattern.RP003? <==> k < |FirstIds(cs[..n])|
  {
    var d, stuck := deduped[k], cs[..n];
    assert cs == stuck + cs[n..];
    BestIsBest(cs, d.id);
    FirstIdsCover(stuck, d.id);
    assert FirstIds(cs)[k] == d.id;
    if k < |FirstIds(stuck)| {
      assert FirstIds(stuck)[k] == d.id;
      var c :| c in stuck && c.id == d.id;
      StuckComesFirst(cs, d, c);
    } else if d.pattern.RP003? {
      assert d in stuck;
      var i :| 0 <= i < |FirstIds(stuck)| && FirstIds(stuck)[i] == d.id;
      FirstIdsDiffer(cs, i, k);
    }
  }

  lemma {:induction false} FirstIdsDiffer(cs: seq<Candidate>, i: nat, k: nat)
    requires i < k < |FirstIds(cs)|
    ensures FirstIds(cs)[i] != FirstIds(cs)[k]
  {
    if k < |FirstIds(cs[..|cs| - 1])| {
      FirstIdsDiffer(cs[..|cs| - 1], i, k);
    }
  }

  lemma CoverageSurvives(cs: seq<Candidate>, deduped: seq<Candidate>)
    requires forall c :: c in cs ==> exists d :: d in deduped && d.id == c.id
    ensures forall id :: Covered(cs, id) ==> Covered(deduped, id)
  {
    forall id | Covered(cs, id) ensures Covered(deduped, id) {
      var c :| c in cs && c.id == id;
    }
  }

  // --- Repair ---

  /** `Broken` is an exception that escapes and ends the pass. */
  datatype Repair = Repaired(db: Durable) | Untouched | Broken

  /** Version re-check and repair of one candidate, in one step. */
  function RepairOne(cfg: Config, db: Durable, c: Candidate, elapsed: real): Repair {
    if db.row.version != c.row.version then Untouched
    else
      match c.pattern
      case RP002 => Untouched
      case RP004 => Untouched
      case RP001 => if c.expected.None? then Broken else Repaired(RecreateExpectedOutbox(db, c.expected.value, 1))
      case RP003 =>
        if !Stuck(db, c.expected, elapsed) then Untouched
        else
          var latest := LatestExpected(db, c.expected);
          var attempts := if latest.Some? then db.tasks[latest.value].attempt else 0;
          if c.expected.Some? && attempts < cfg.attempts(c.expected.value) then
            Repaired(RecreateExpectedOutbox(db, c.expected.value, attempts + 1))
          else
            var r := ApplySignal(cfg.maxRevisions, db, db.row.state, ReconciliationRepair);
            if r.Done? then Repaired(r.db) else Broken
  }

  /** The database keeps its promise that a row never changes without a new version. */
  ghost predicate SameVersionSameRow(c: Candidate, db: Durable) {
    db.row.version == c.row.version ==> db.row == c.row
  }

  ghost predicate CollectedEarlier(c: Candidate) {
    exists db: Durable, elapsed: real :: db.row == c.row && Justified(c, db, elapsed)
  }

  /** No repair of a collected candidate ever breaks the pass, and a finished
      workflow or one awaiting approval is never altered, however the world moved
      since it was collected. */
  lemma RepairIsSafe(cfg: Config, db: Durable, c: Candidate, elapsed: real)
    requires CollectedEarlier(c) && SameVersionSameRow(c, db)
    ensures !RepairOne(cfg, db, c, elapsed).Broken?
    ensures Terminal(db.row.state) || Paused(db.row.state) ==> RepairOne(cfg, db, c, elapsed).Untouched?
  {
    if db.row.version == c.row.version && Transient(db.row.state) {
      RepairSignalApplies(cfg.maxRevisions, db);
    }
  }

  lemma RepairSignalApplies(maxRevisions: nat, db: Durable)
    requires Transient(db.row.state)
    ensures
      var r := ApplySignal(maxRevisions, db, db.row.state, ReconciliationRepair);
      r.Done? && r.db.row.state == Failed && r.db.tasks == db.tasks && r.db.outbox == db.outbox
  {
  }

  /** Position t holds the most recently created task of this kind. */
  ghost predicate LastOfKind(db: Durable, kind: TaskType, t: nat) {
    && t < |db.tasks| && db.tasks[t].kind == kind
    && forall i :: t < i < |db.tasks| ==> db.tasks[i].kind != kind
  }

  ghost predicate NoneOfKind(db: Durable, kind: TaskType) {
    forall i :: 0 <= i < |db.tasks| ==> db.tasks[i].kind != kind
  }

  /** The workflow gets one more task of this kind, with this attempt, pending and with
      its outbox row still to be published, and changes in nothing else. */
  ghost predicate Redispatched(db: Durable, next: Durable, kind: TaskType, attempt: nat) {
    && |next.tasks| == |db.tasks| + 1
    && next.tasks[|db.tasks|].kind == kind && next.tasks[|db.tasks|].attempt == attempt
    && next.tasks[|db.tasks|].status.Pending?
    && next == db.(tasks := db.tasks + [next.tasks[|db.tasks|]], outbox := db.outbox + [OutboxRow(|db.tasks|, false)])
  }

  /** A stuck workflow that is still stuck when its turn comes: if a task is due for its
      state, it is dispatched again with one attempt more than the last one of its
      kind, or with the first when there is none, as long as that is within the retry
      policy; otherwise the workflow fails. */
  lemma StuckIsResolved(cfg: Config, db: Durable, c: Candidate, elapsed: real)
    requires ValidConfig(cfg) && CollectedEarlier(c) && c.row == db.row && c.pattern.RP003?
    requires Stuck(db, c.expected, elapsed)
    ensures RepairOne(cfg, db, c, elapsed).Repaired?
    ensures
      var next := RepairOne(cfg, db, c, elapsed).db;
      if c.expected.None? then next.row.state == Failed && next.tasks == db.tasks
      else
        var kind := c.expected.value;
        && (NoneOfKind(db, kind) ==> Redispatched(db, next, kind, 1))
        && (forall t: nat :: LastOfKind(db, kind, t) ==>
              if db.tasks[t].attempt < cfg.attempts(kind) then Redispatched(db, next, kind, db.tasks[t].attempt + 1)
              else next.row.state == Failed && next.tasks == db.tasks)
  {
    RepairSignalApplies(cfg.maxRevisions, db);
  }

  /** A workflow whose due task was never dispatched gets it, with its first attempt. */
  lemma MissingIsDispatched(cfg: Config, db: Durable, c: Candidate, elapsed: real)
    requires CollectedEarlier(c) && c.row == db.row && c.pattern.RP001?
    ensures
      var r := RepairOne(cfg, db, c, elapsed);
      c.expected.Some? && r.Repaired? && Redispatched(db, r.db, c.expected.value, 1)
  {
  }

  /** The other two patterns are only reported. */
  lemma OthersAreOnlyReported(cfg: Config, db: Durable, c: Candidate, elapsed: real)
    requires c.pattern.RP002? || c.pattern.RP004? || db.row.version != c.row.version
    ensures RepairOne(cfg, db, c, elapsed).Untouched?
  {
  }

  /** One RP-003 re-dispatch of a kind of task, before and after. */
  datatype Redispatch = Redispatch(before: Durable, after: Durable)

  ghost predicate IsRedispatch(cfg: Config, r: Redispatch, kind: TaskType) {
    exists c: Candidate, elapsed: real ::
      && CollectedEarlier(c) && c.row == r.before.row && c.pattern.RP003? && c.expected == Some(kind)
      && Stuck(r.before, c.expected, elapsed)
      && RepairOne(cfg, r.before, c, elapsed) == Repaired(r.after) && |r.after.tasks| > |r.before.tasks|
  }

  /** Each re-dispatch uses up one attempt of the policy. */
  lemma RedispatchCountsUp(cfg: Config, r: Redispatch, kind: TaskType, last: nat)
    requires ValidConfig(cfg) && IsRedispatch(cfg, r, kind) && LastOfKind(r.before, kind, last)
    ensures
      var t := |r.before.tasks|;
      && LastOfKind(r.after, kind, t) && r.after.tasks[t].attempt == r.before.tasks[last].attempt + 1
      && r.after.tasks[t].attempt <= cfg.attempts(kind)
  {
    var c: Candidate, elapsed: real :|
      && CollectedEarlier(c) && c.row == r.before.row && c.pattern.RP003? && c.expected == Some(kind)
      && Stuck(r.before, c.expected, elapsed)
      && RepairOne(cfg, r.before, c, elapsed) == Repaired(r.after) && |r.after.tasks| > |r.before.tasks|;
    StuckIsResolved(cfg, r.before, c, elapsed);
  }

  ghost predicate AttemptsHold(a: Durable, b: Durable, kind: TaskType) {
    forall x: nat, y: nat :: LastOfKind(a, kind, x) && LastOfKind(b, kind, y) ==>
      a.tasks[x].attempt <= b.tasks[y].attempt
  }

  /** Re-dispatches in turn: between two of them the last task of the kind may be tried
      and retried, but its attempt never falls. */
  ghost predicate InSequence(cfg: Config, rs: seq<Redispatch>, kind: TaskType) {
    && (forall i :: 0 <= i < |rs| ==> IsRedispatch(cfg, rs[i], kind))
    && (forall i :: 0 <= i < |rs| - 1 ==> AttemptsHold(rs[i].after, rs[i + 1].before, kind))
    && (forall i :: 0 <= i < |rs| ==> exists t: nat :: LastOfKind(rs[i].before, kind, t))
    && (forall i, t: nat :: 0 <= i < |rs| && LastOfKind(rs[i].before, kind, t) ==> rs[i].before.tasks[t].attempt >= 1)
  }

  lemma {:induction false} RedispatchesClimb(cfg: Config, rs: seq<Redispatch>, kind: TaskType, n: nat)
    requires ValidConfig(cfg) && InSequence(cfg, rs, kind) && n < |rs|
    ensures
      var t := |rs[n].before.tasks|;
      LastOfKind(rs[n].after, kind, t) && n + 2 <= rs[n].after.tasks[t].attempt <= cfg.attempts(kind)
  {
    var last: nat :| LastOfKind(rs[n].before, kind, last);
    RedispatchCountsUp(cfg, rs[n], kind, last);
    if n > 0 {
      RedispatchesClimb(cfg, rs, kind, n - 1);
      assert AttemptsHold(rs[n - 1].after, rs[n - 1 + 1].before, kind);
    }
  }

  /** So the reconciler re-dispatches a task that was dispatched before fewer times than
      the policy allows attempts; after that RP-003 fails the workflow. */
  lemma {:induction false} RedispatchesAreBounded(cfg: Config, rs: seq<Redispatch>, kind: TaskType)
    requires ValidConfig(cfg) && InSequence(cfg, rs, kind)
    ensures |rs| < cfg.attempts(kind)
  {
    if |rs| > 0 {
      RedispatchesClimb(cfg, rs, kind, |rs| - 1);
    }
  }

  /** Exactly which workflow the first sweep reports: one in an execution state for more
      than 1800 seconds, or in another state on the way for more than 3600, whose last
      due task is not in flight. */
  lemma StuckExactlyWhen(id: Id, db: Durable, elapsed: real)
    ensures
      var c := StuckCandidate(id, db, elapsed);
      var due := Rp001ExpectedTask(db);
      && (c.Some? <==>
            && (if Executing(db.row.state) then elapsed > 1800.0
                else elapsed > 3600.0 && !Terminal(db.row.state) && !db.row.state.AwaitingHumanApproval?)
            && forall t: nat :: due.Some? && LastOfKind(db, due.value, t) ==> !InFlight(db.tasks[t].status))
      && (c.Some? ==> c == Some(Candidate(id, db.row, RP003, due)))
  {
    if Rp001ExpectedTask(db).Some? {
      var latest := LatestOfKind(db.tasks, Rp001ExpectedTask(db).value);
      assert latest.Some? ==> LastOfKind(db, Rp001ExpectedTask(db).value, latest.value);
    }
  }

  /** Exactly which task counts as due: while a scenario is generated, another
      GENERATE once the last one is not in flight and nothing is waiting to be
      published; elsewhere what the table expects. */
  lemma DueExactlyWhen(db: Durable)
    ensures db.row.state.GeneratingScenario? ==>
      && (Rp001ExpectedTask(db).Some? ==> Rp001ExpectedTask(db) == Some(GenerateScenario))
      && (Rp001ExpectedTask(db).Some? <==>
            && (exists t: nat :: LastOfKind(db, GenerateScenario, t) && !InFlight(db.tasks[t].status))
            && forall o :: 0 <= o < |db.outbox| && !db.outbox[o].published && db.outbox[o].task < |db.tasks| ==>
                 !db.tasks[db.outbox[o].task].kind.GenerateScenario?)
    ensures !db.row.state.GeneratingScenario? ==> Rp001ExpectedTask(db) == ExpectedOutboxTask(db.row.state)
  {
    var latest := LatestOfKind(db.tasks, GenerateScenario);
    assert latest.Some? ==> LastOfKind(db, GenerateScenario, latest.value);
  }

  /** Exactly what the second sweep reports of a workflow in one of its five states, and
      the third of a finished one. */
  lemma OutboxPatternsExactlyWhen(id: Id, db: Durable)
    ensures
      var scanned := db.row.state in {Collecting, Collected, TopicSelected, ScenarioGenerated, GeneratingScenario};
      var waiting := exists o :: 0 <= o < |db.outbox| && !db.outbox[o].published;
      var due := Rp001ExpectedTask(db);
      && OutboxCandidate(id, db) ==
         (if scanned && waiting then Some(Candidate(id, db.row, RP002, None))
          else if scanned && due.Some? then Some(Candidate(id, db.row, RP001, due))
          else None)
      && (LeftoverCandidate(id, db).Some? <==> Terminal(db.row.state) && waiting)
  {
  }

  /** Stuck before missing before waiting before left over. */
  lemma PrioritiesRank()
    ensures Priority(RP003) < Priority(RP001) < Priority(RP002) < Priority(RP004)
  {
  }

  /** An overdue workflow is failed by the pass exactly when no task is due for
      its state, or the last task that is due has used up its attempts without
      being in flight. A task that is merely in flight saves the workflow only in
      COLLECTING: in the three later execution states no task counts as due. */
  lemma OverdueFailsExactlyWhen(cfg: Config, id: Id, db: Durable, elapsed: real)
    requires ValidConfig(cfg) && Transient(db.row.state) && Overdue(db.row.state, elapsed)
    ensures
      var due := Rp001ExpectedTask(db);
      var latest := LatestExpected(db, due);
      var c := StuckCandidate(id, db, elapsed);
      var failed := c.Some? && RepairOne(cfg, db, c.value, elapsed).Repaired?
                    && RepairOne(cfg, db, c.value, elapsed).db.row.state == Failed;
      failed <==>
        || due.None?
        || (latest.Some? && !InFlight(db.tasks[latest.value].status)
            && db.tasks[latest.value].attempt >= cfg.attempts(due.value))
  {
    RepairSignalApplies(cfg.maxRevisions, db);
  }

  /** In particular a scenario generation that is in flight does not protect its
      workflow: after half an hour the pass fails it. */
  lemma InFlightGenerationIsFailed(cfg: Config, id: Id, db: Durable, elapsed: real, t: nat)
    requires db.row.state.GeneratingScenario? && elapsed > 1800.0
    requires LatestOfKind(db.tasks, GenerateScenario) == Some(t) && InFlight(db.tasks[t].status)
    ensures
      var c := StuckCandidate(id, db, elapsed);
      && c.Some? && RepairOne(cfg, db, c.value, elapsed).Repaired?
      && RepairOne(cfg, db, c.value, elapsed).db.row.state == Failed
  {
    RepairSignalApplies(cfg.maxRevisions, db);
  }

  function CountRepaired(reports: seq<Report>): nat {
    if |reports| == 0 then 0
    else CountRepaired(reports[..|reports| - 1]) + if reports[|reports| - 1].repaired then 1 else 0
  }

  /** The counter of a pass is the number of positions with a repaired report. */
  lemma {:induction false} CountRepairedMeans(reports: seq<Report>)
    ensures CountRepaired(reports) == |set i | 0 <= i < |reports| && reports[i].repaired|
  {
    if |reports| > 0 {
      var before := reports[..|reports| - 1];
      CountRepairedMeans(before);
      var earlier := set i | 0 <= i < |before| && before[i].repaired;
      var all := set i | 0 <= i < |reports| && reports[i].repaired;
      assert all == earlier + if reports[|reports| - 1].repaired then {|reports| - 1} else {};
    }
  }

  function AfterRepair(world: World, id: Id, r: Repair): World {
    if r.Repaired? then world[id := r.db] else world
  }

  /** What the k-th turn of a pass does to the world it finds. */
  function Turn(cfg: Config, world: World, c: Candidate, elapsed: real): Repair {
    if c.id !in world then Untouched else RepairOne(cfg, world[c.id], c, elapsed)
  }

  /** One pass: the candidates in order, `others(k, w)` for whatever the rest of
      the system makes of the world before the k-th turn, and `turn(k, w)` for
      what the k-th turn does. */
  datatype Pass = Pass(candidates: seq<Candidate>, turn: (nat, World) -> Repair, start: World,
                       others: (nat, World) -> World)
  {
    function After(k: nat): World
      requires k <= |candidates|
    {
      if k == 0 then start
      else
        var found := others(k - 1, After(k - 1));
        AfterRepair(found, candidates[k - 1].id, turn(k - 1, found))
    }

    function Before(k: nat): World
      requires k < |candidates|
    {
      others(k, After(k))
    }

    function ReportAt(k: nat): Report
      requires k < |candidates|
    {
      Report(candidates[k].id, candidates[k].pattern, turn(k, Before(k)).Repaired?)
    }

    function Reports(k: nat): (r: seq<Report>)
      requires k <= |candidates|
      ensures |r| == k
    {
      if k == 0 then [] else Reports(k - 1) + [ReportAt(k - 1)]
    }
  }

  /** Exactly one report for each candidate, in their order. */
  lemma {:induction false} OneReportEach(p: Pass, k: nat, i: nat)
    requires i < k <= |p.candidates|
    ensures p.Reports(k)[i] == p.ReportAt(i)
  {
    if i < k - 1 {
      OneReportEach(p, k - 1, i);
    }
  }

  lemma CountOfLast(reports: seq<Report>, report: Report)
    ensures CountRepaired(reports + [report]) == CountRepaired(reports) + if report.repaired then 1 else 0
  {
    assert (reports + [report])[..|reports|] == reports;
  }

  /** The loop of a pass. */
  method RepairEach(p: Pass)
    returns (world: World, reports: seq<Report>, repairedCount: nat, completed: bool)
    ensures repairedCount == CountRepaired(reports)
    ensures |reports| <= |p.candidates| && reports == p.Reports(|reports|)
    ensures completed ==> |reports| == |p.candidates| && world == p.After(|reports|)
    ensures !completed ==> |reports| < |p.candidates| && p.turn(|reports|, p.Before(|reports|)).Broken?
  {
    world, reports, repairedCount := p.start, [], 0;
    for k := 0 to |p.candidates|
      invariant world == p.After(k)
      invariant |reports| == k && reports == p.Reports(k)
      invariant repairedCount == CountRepaired(reports)
    {
      world := p.others(k, world);
      var result := p.turn(k, world);
      if result.Broken? {
        return world, reports, repairedCount, false;
      }
      var report := Report(p.candidates[k].id, p.candidates[k].pattern, result.Repaired?);
      CountOfLast(reports, report);
      PassStep(p, k);
      if result.Repaired? {
        world := world[p.candidates[k].id := result.db];
        repairedCount := repairedCount + 1;
      }
      reports := reports + [report];
    }
    completed := true;
  }

  lemma PassStep(p: Pass, k: nat)
    requires k < |p.candidates|
    ensures p.After(k + 1) == AfterRepair(p.Before(k), p.candidates[k].id, p.turn(k, p.Before(k)))
    ensures p.Reports(k + 1) == p.Reports(k) + [p.ReportAt(k)]
  {
  }

  /** The pass that scan_and_repair makes; `elapsed[k]` is the age of the k-th
      workflow's row at its turn. */
  function RepairPass(cfg: Config, candidates: seq<Candidate>, elapsed: seq<real>, start: World,
                      others: (nat, World) -> World): Pass
    requires |elapsed| == |candidates|
  {
    Pass(candidates, (k: nat, w: World) =>
           if k < |candidates| then Turn(cfg, w, candidates[k], elapsed[k]) else Untouched,
         start, others)
  }

  /** Whatever happened between collection and its turn, a workflow that still has
      its version still has its row. */
  ghost predicate VersionsTell(p: Pass) {
    forall k :: 0 <= k < |p.candidates| && p.candidates[k].id in p.Before(k) ==>
      SameVersionSameRow(p.candidates[k], p.Before(k)[p.candidates[k].id])
  }

  /** A pass over collected candidates runs to the end with one report each, and
      the count it returns is the number of repaired reports. */
  method ScanAndRepair(cfg: Config, candidates: seq<Candidate>, elapsed: seq<real>,
                       start: World, others: (nat, World) -> World)
    returns (world: World, reports: seq<Report>, repairedCount: nat)
    requires |elapsed| == |candidates|
    requires forall i :: 0 <= i < |candidates| ==> CollectedEarlier(candidates[i])
    requires VersionsTell(RepairPass(cfg, candidates, elapsed, start, others))
    ensures
      var p := RepairPass(cfg, candidates, elapsed, start, others);
      world == p.After(|candidates|) && reports == p.Reports(|candidates|)
    ensures repairedCount == CountRepaired(reports)
  {
    var completed;
    ghost var p := RepairPass(cfg, candidates, elapsed, start, others);
    world, reports, repairedCount, completed := RepairEach(RepairPass(cfg, candidates, elapsed, start, others));
    if !completed {
      TurnIsSafe(cfg, candidates, elapsed, start, others, |reports|);
      assert false;
    }
  }

  /** The k-th turn does not break the pass, touches only its own workflow, and leaves a
      finished or paused one as it is. */
  ghost predicate TurnKeeps(p: Pass, k: nat)
    requires k < |p.candidates|
  {
    var id := p.candidates[k].id;
    && !p.turn(k, p.Before(k)).Broken?
    && (forall other :: other != id ==>
          (other in p.After(k + 1) <==> other in p.Before(k))
          && (other in p.Before(k) ==> p.After(k + 1)[other] == p.Before(k)[other]))
    && (id in p.Before(k) && !Transient(p.Before(k)[id].row.state) ==>
          p.After(k + 1) == p.Before(k) && !p.ReportAt(k).repaired)
  }

  lemma TurnIsSafe(cfg: Config, candidates: seq<Candidate>, elapsed: seq<real>,
                   start: World, others: (nat, World) -> World, k: nat)
    requires |elapsed| == |candidates| && k < |candidates|
    requires CollectedEarlier(candidates[k])
    requires VersionsTell(RepairPass(cfg, candidates, elapsed, start, others))
    ensures TurnKeeps(RepairPass(cfg, candidates, elapsed, start, others), k)
  {
    var p := RepairPass(cfg, candidates, elapsed, start, others);
    var world := p.Before(k);
    if candidates[k].id in world {
      RepairIsSafe(cfg, world[candidates[k].id], candidates[k], elapsed[k]);
    }
  }

  /** A row that changes gets a later version. */
  predicate RowEvolves(a: Row, b: Row) {
    a.version < b.version || a == b
  }

  /** Workflows may appear, none is lost, and rows change only with their versions. */
  ghost predicate WorldEvolves(a: World, b: World) {
    forall id :: id in a ==> id in b && RowEvolves(a[id].row, b[id].row)
  }

  lemma TurnEvolves(cfg: Config, world: World, c: Candidate, elapsed: real)
    ensures WorldEvolves(world, AfterRepair(world, c.id, Turn(cfg, world, c, elapsed)))
  {
  }

  lemma {:induction false} PassEvolves(cfg: Config, candidates: seq<Candidate>, elapsed: seq<real>,
                                       start: World, others: (nat, World) -> World, k: nat)
    requires |elapsed| == |candidates| && k <= |candidates|
    requires forall i: nat, w: World :: WorldEvolves(w, others(i, w))
    ensures WorldEvolves(start, RepairPass(cfg, candidates, elapsed, start, others).After(k))
  {
    if k > 0 {
      var p := RepairPass(cfg, candidates, elapsed, start, others);
      PassEvolves(cfg, candidates, elapsed, start, others, k - 1);
      PassTurnEvolves(cfg, candidates, elapsed, start, others, k - 1);
      EvolvesOn(start, p.After(k - 1), p.Before(k - 1));
      EvolvesOn(start, p.Before(k - 1), p.After(k));
    }
  }

  lemma {:induction false} PassTurnEvolves(cfg: Config, candidates: seq<Candidate>, elapsed: seq<real>,
                                           start: World, others: (nat, World) -> World, k: nat)
    requires |elapsed| == |candidates| && k < |candidates|
    ensures
      var p := RepairPass(cfg, candidates, elapsed, start, others);
      WorldEvolves(p.Before(k), p.After(k + 1))
  {
    var p := RepairPass(cfg, candidates, elapsed, start, others);
    PassStep(p, k);
    TurnEvolves(cfg, p.Before(k), candidates[k], elapsed[k]);
  }

  lemma EvolvesOn(a: World, b: World, c: World)
    requires WorldEvolves(a, b) && WorldEvolves(b, c)
    ensures WorldEvolves(a, c)
  {
  }

  /** The premise of a pass is met whatever the rest of the system does between the
      turns, nothing and the initiation of workflows included, as long as it loses
      no workflow and changes rows only with their versions. */
  lemma {:induction false} EvolvingPassTells(cfg: Config, candidates: seq<Candidate>, elapsed: seq<real>,
                                             start: World, others: (nat, World) -> World)
    requires |elapsed| == |candidates|
    requires forall i: nat, w: World :: WorldEvolves(w, others(i, w))
    requires forall i :: 0 <= i < |candidates| ==>
      candidates[i].id in start && RowEvolves(candidates[i].row, start[candidates[i].id].row)
    ensures VersionsTell(RepairPass(cfg, candidates, elapsed, start, others))
  {
    var p := RepairPass(cfg, candidates, elapsed, start, others);
    forall k | 0 <= k < |p.candidates| && p.candidates[k].id in p.Before(k)
      ensures SameVersionSameRow(p.candidates[k], p.Before(k)[p.candidates[k].id])
    {
      PassEvolves(cfg, candidates, elapsed, start, others, k);
      EvolvesOn(start, p.After(k), p.Before(k));
    }
  }

  /** What collection finds meets what a pass asks of its candidates, in a world that
      has evolved since and goes on evolving between the turns. */
  lemma {:induction false} CollectedFitsThePass(
    cfg: Config, world: World, ages: map<Id, real>, candidates: seq<Candidate>, elapsed: seq<real>,
    start: World, others: (nat, World) -> World)
    requires ages.Keys == world.Keys && AllJustified(candidates, world, ages) && |elapsed| == |candidates|
    requires WorldEvolves(world, start) && forall i: nat, w: World :: WorldEvolves(w, others(i, w))
    ensures forall i :: 0 <= i < |candidates| ==> CollectedEarlier(candidates[i])
    ensures VersionsTell(RepairPass(cfg, candidates, elapsed, start, others))
  {
    forall i | 0 <= i < |candidates|
      ensures CollectedEarlier(candidates[i])
      ensures candidates[i].id in start && RowEvolves(candidates[i].row, start[candidates[i].id].row)
    {
      var c := candidates[i];
      assert c in candidates;
      JustifiedIsCollected(c, world[c.id], ages[c.id]);
    }
    EvolvingPassTells(cfg, candidates, elapsed, start, others);
  }

  lemma JustifiedIsCollected(c: Candidate, db: Durable, age: real)
    requires Justified(c, db, age)
    ensures c.row == db.row && CollectedEarlier(c)
  {
  }

  function AgesOf(age: nat -> real, n: nat): (r: seq<real>)
    ensures |r| == n
  {
    seq(n, k requires 0 <= k < n => age(k))
  }

  /** Collection and the pass over what it found, in a world that changes rows only with
      their versions: the pass runs to its end with one report for each candidate, and
      no turn breaks it, alters a finished or paused workflow or touches another
      workflow than its own. `age(k)` is the age of the k-th row at its turn. */
  method CollectAndRepair(cfg: Config, world: World, ages: map<Id, real>, overdueRows: seq<Id>, scannedRows: seq<Id>,
                          unpublished: seq<Id>, batchSize: nat, age: nat -> real,
                          start: World, others: (nat, World) -> World)
    returns (candidates: seq<Candidate>, last: World, reports: seq<Report>, repairedCount: nat)
    requires ages.Keys == world.Keys
    requires forall id :: id in overdueRows || id in scannedRows ==> id in world
    requires forall id :: id in unpublished && id in world ==> HasUnpublished(world[id])
    requires WorldEvolves(world, start) && forall i: nat, w: World :: WorldEvolves(w, others(i, w))
    ensures |candidates| <= batchSize && DistinctIds(candidates) && AllJustified(candidates, world, ages)
    ensures |candidates| < batchSize ==>
      forall id :: Due(world, ages, overdueRows, scannedRows, unpublished, id) ==> Covered(candidates, id)
    ensures repairedCount == CountRepaired(reports) && |reports| == |candidates|
    ensures
      var p := RepairPass(cfg, candidates, AgesOf(age, |candidates|), start, others);
      && last == p.After(|candidates|) && reports == p.Reports(|candidates|)
      && forall k :: 0 <= k < |candidates| ==> TurnKeeps(p, k)
  {
    candidates := CollectCandidates(world, ages, overdueRows, scannedRows, unpublished, batchSize);
    var elapsed := AgesOf(age, |candidates|);
    CollectedFitsThePass(cfg, world, ages, candidates, elapsed, start, others);
    last, reports, repairedCount := ScanAndRepair(cfg, candidates, elapsed, start, others);
    forall k | 0 <= k < |candidates| ensures TurnKeeps(RepairPass(cfg, candidates, elapsed, start, others), k) {
      TurnIsSafe(cfg, candidates, elapsed, start, others, k);
    }
  }

  /** Over the distinct candidates that collection returns, a pass touches each
      workflow in its own turn only. */
  lemma EachWorkflowTouchedOnce(p: Pass, i: nat, j: nat)
    requires DistinctIds(p.candidates)
    requires i < j < |p.candidates|
    ensures
      var id := p.candidates[i].id;
      && (id in p.After(j + 1) <==> id in p.Before(j))
      && (id in p.Before(j) ==> p.After(j + 1)[id] == p.Before(j)[id])
  {
  }
}
