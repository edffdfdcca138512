/** Racing callers of the engine. Every caller reads the row, thinks, and later
    writes on the strength of that snapshot; reads and writes of all callers
    interleave in any order. */
module Races {
  import opened WorkflowTypes
  import opened TransitionTable
  import opened Engine
  import opened History

  /** `snapshots[c]` is the row that caller c last read. */
  datatype Race = Race(db: Durable, snapshots: map<nat, Row>)

  datatype Act =
    | Read(caller: nat)
    | Transition(caller: nat, expected: WorkflowState, signal: Signal)
    | Approval(caller: nat, action: ApprovalAction)

  /** The write a caller attempts, decided on its snapshot alone. */
  function Attempt(maxRevisions: nat, r: Race, act: Act): Outcome {
    match act
    case Read(_) => Invalid
    case Transition(c, expected, signal) =>
      if c !in r.snapshots then Invalid
      else
        var d := DecideSignal(maxRevisions, r.snapshots[c], expected, signal);
        if d.None? then Invalid else Execute(r.db, r.snapshots[c], d.value, Signalled(signal))
    case Approval(c, action) =>
      if c !in r.snapshots || r.snapshots[c].state != AwaitingHumanApproval then Invalid
      else Execute(r.db, r.snapshots[c], LookupApproval(action), Decided(action))
  }

  function Next(maxRevisions: nat, r: Race, act: Act): Race {
    match act
    case Read(c) => r.(snapshots := r.snapshots[c := r.db.row])
    case _ =>
      var o := Attempt(maxRevisions, r, act);
      if o.Done? then r.(db := o.db) else r
  }

  ghost predicate Run(maxRevisions: nat, races: seq<Race>, acts: seq<Act>) {
    && |races| == |acts| + 1
    && races[0] == Race(Initiate(), map[])
    && forall i :: 0 <= i < |acts| ==> races[i + 1] == Next(maxRevisions, races[i], acts[i])
  }

  /** A snapshot is never ahead of the row, and one of the same version is the row. */
  ghost predicate Consistent(maxRevisions: nat, r: Race) {
    && Faithful(maxRevisions, r.db)
    && forall c :: c in r.snapshots ==>
         && r.snapshots[c].version <= r.db.row.version
         && (r.snapshots[c].version == r.db.row.version ==> r.snapshots[c] == r.db.row)
  }

  lemma {:induction false} StepKeepsConsistent(maxRevisions: nat, r: Race, act: Act)
    requires Consistent(maxRevisions, r)
    ensures Consistent(maxRevisions, Next(maxRevisions, r, act))
    ensures Attempt(maxRevisions, r, act).Done? ==>
      Next(maxRevisions, r, act).db.row.version == r.db.row.version + 1
  {
    match act
    case Read(c) =>
    case Transition(c, expected, signal) =>
      if Attempt(maxRevisions, r, act).Done? {
        LookupStartsHere(r.db.row.state, signal, r.db.row.revisions, maxRevisions);
        SignalKeepsFaithful(maxRevisions, r.db, expected, signal);
        assert Attempt(maxRevisions, r, act) == ApplySignal(maxRevisions, r.db, expected, signal);
      }
    case Approval(c, action) =>
      if Attempt(maxRevisions, r, act).Done? {
        ApprovalKeepsFaithful(maxRevisions, r.db, action);
        assert Attempt(maxRevisions, r, act) == ApplyApproval(r.db, action);
      }
  }

  /** History replay: at every moment of every interleaving of stale callers the
      history alone rebuilds the stored row. */
  lemma {:induction false} RacesKeepHistoryFaithful(maxRevisions: nat, races: seq<Race>, acts: seq<Act>, i: nat)
    requires Run(maxRevisions, races, acts)
    requires i < |races|
    ensures Consistent(maxRevisions, races[i])
  {
    if i == 0 {
      InitiateIsFaithful(maxRevisions);
    } else {
      RacesKeepHistoryFaithful(maxRevisions, races, acts, i - 1);
      StepKeepsConsistent(maxRevisions, races[i - 1], acts[i - 1]);
      assert races[i - 1 + 1] == Next(maxRevisions, races[i - 1], acts[i - 1]);
    }
  }

  lemma {:induction false} VersionsNeverFall(maxRevisions: nat, races: seq<Race>, acts: seq<Act>, i: nat, j: nat)
    requires Run(maxRevisions, races, acts)
    requires i <= j < |races|
    ensures races[i].db.row.version <= races[j].db.row.version
    decreases j
  {
    if i < j {
      VersionsNeverFall(maxRevisions, races, acts, i, j - 1);
      assert races[j - 1 + 1] == Next(maxRevisions, races[j - 1], acts[j - 1]);
    }
  }

  /** Of all mutations decided on one row version, at most one commits. */
  lemma OneCommitPerVersion(maxRevisions: nat, races: seq<Race>, acts: seq<Act>, i: nat, j: nat)
    requires Run(maxRevisions, races, acts)
    requires i < j < |acts|
    requires Attempt(maxRevisions, races[i], acts[i]).Done?
    requires Attempt(maxRevisions, races[j], acts[j]).Done?
    ensures acts[i].caller in races[i].snapshots && acts[j].caller in races[j].snapshots
    ensures races[i].snapshots[acts[i].caller].version < races[j].snapshots[acts[j].caller].version
  {
    RacesKeepHistoryFaithful(maxRevisions, races, acts, i);
    StepKeepsConsistent(maxRevisions, races[i], acts[i]);
    assert races[i + 1] == Next(maxRevisions, races[i], acts[i]);
    VersionsNeverFall(maxRevisions, races, acts, i + 1, j);
  }

  /** A writer whose snapshot is out of date changes nothing at all. */
  lemma StaleWriterChangesNothing(maxRevisions: nat, r: Race, act: Act)
    requires !act.Read?
    requires act.caller in r.snapshots && r.snapshots[act.caller].version != r.db.row.version
    ensures Next(maxRevisions, r, act) == r
  {
  }
}
