/** Idempotency keys as text, built twice: by the outbox builder when it creates a
    task, and again by the worker that executes it. */
module LogicalKeys {
  import opened WorkflowTypes
  import opened Engine
  import opened Text

  function TypeName(kind: TaskType): string {
    match kind
    case Collect => "COLLECT"
    case SelectTopic => "SELECT_TOPIC"
    case GenerateScenario => "GENERATE_SCENARIO"
    case ReviewScenario => "REVIEW_SCENARIO"
  }

  function KeyText(workflowId: string, key: Key): string {
    workflowId + ":" + TypeName(key.kind) + ":" + Decimal(key.logical)
  }

  /** The key texts of a workflow, written out. */
  lemma KeyTextsAre(workflowId: string)
    ensures KeyText(workflowId, Key(Collect, 1)) == workflowId + ":COLLECT:1"
    ensures KeyText(workflowId, Key(SelectTopic, 1)) == workflowId + ":SELECT_TOPIC:1"
    ensures KeyText(workflowId, Key(GenerateScenario, 12)) == workflowId + ":GENERATE_SCENARIO:12"
    ensures KeyText(workflowId, Key(ReviewScenario, 3)) == workflowId + ":REVIEW_SCENARIO:3"
  {
    EarlyKeyTexts(workflowId);
    LateKeyTexts(workflowId);
  }

  lemma EarlyKeyTexts(workflowId: string)
    ensures KeyText(workflowId, Key(Collect, 1)) == workflowId + ":COLLECT:1"
    ensures KeyText(workflowId, Key(SelectTopic, 1)) == workflowId + ":SELECT_TOPIC:1"
  {
    DecimalsAre();
    Tail(workflowId, "COLLECT", "1", ":COLLECT:1");
    Tail(workflowId, "SELECT_TOPIC", "1", ":SELECT_TOPIC:1");
  }

  lemma LateKeyTexts(workflowId: string)
    ensures KeyText(workflowId, Key(GenerateScenario, 12)) == workflowId + ":GENERATE_SCENARIO:12"
    ensures KeyText(workflowId, Key(ReviewScenario, 3)) == workflowId + ":REVIEW_SCENARIO:3"
  {
    DecimalsAre();
    Tail(workflowId, "GENERATE_SCENARIO", "12", ":GENERATE_SCENARIO:12");
    Tail(workflowId, "REVIEW_SCENARIO", "3", ":REVIEW_SCENARIO:3");
  }

  lemma DecimalsAre()
    ensures Decimal(1) == "1" && Decimal(3) == "3" && Decimal(12) == "12"
  {
    assert Decimal(12) == Decimal(1) + [DigitChar(2)];
  }

  lemma Tail(workflowId: string, name: string, number: string, tail: string)
    requires ":" + name + ":" + number == tail
    ensures workflowId + ":" + name + ":" + number == workflowId + tail
  {
  }

  predicate NoColon(s: string) {
    forall i :: 0 <= i < |s| ==> s[i] != ':'
  }

  lemma LastColonOf(s: string, a: string, b: string)
    requires s == a + ":" + b && NoColon(b)
    ensures s[|a|] == ':' && forall i :: |a| < i < |s| ==> s[i] != ':'
  {
    forall i | |a| < i < |s| ensures s[i] != ':' {
      assert s[i] == b[i - |a| - 1];
    }
  }

  /** A text splits at its last colon in one way only. */
  lemma LastColonSplits(a: string, b: string, c: string, d: string)
    requires NoColon(b) && NoColon(d)
    requires a + ":" + b == c + ":" + d
    ensures a == c && b == d
  {
    var s := a + ":" + b;
    LastColonOf(s, a, b);
    LastColonOf(s, c, d);
    assert a == s[..|a|] && c == s[..|c|];
    assert b == s[|a| + 1..] && d == s[|c| + 1..];
  }

  lemma TypeNamesDiffer(j: TaskType, k: TaskType)
    requires TypeName(j) == TypeName(k)
    ensures j == k
  {
    assert TypeName(j)[0] == TypeName(k)[0];
  }

  /** Keys of different workflows, task types or logical versions are different
      texts, whatever the workflow ids contain. */
  lemma KeyTextIsInjective(v: string, j: Key, w: string, k: Key)
    requires KeyText(v, j) == KeyText(w, k)
    ensures v == w && j == k
  {
    NumeralsAndNamesHaveNoColon(j);
    NumeralsAndNamesHaveNoColon(k);
    LastColonSplits(v + ":" + TypeName(j.kind), Decimal(j.logical), w + ":" + TypeName(k.kind), Decimal(k.logical));
    LastColonSplits(v, TypeName(j.kind), w, TypeName(k.kind));
    TypeNamesDiffer(j.kind, k.kind);
    DecimalIsInjective(j.logical, k.logical);
  }

  lemma NumeralsAndNamesHaveNoColon(k: Key)
    ensures NoColon(Decimal(k.logical)) && NoColon(TypeName(k.kind))
  {
    ValueOfDecimal(k.logical);
  }

  // --- The worker's own computation ---

  /** A JSON object, as far as its `logical_version` member goes. */
  datatype Document = Document(version: Option<nat>)

  /** What reading the payload record comes back with: an error, an object, or a
      text that may or may not parse to an object. */
  datatype PayloadRead = Unreadable | Object(document: Document) | JsonText(parsed: Option<Document>)

  predicate Fixed(kind: TaskType) {
    kind.Collect? || kind.SelectTopic?
  }

  /** What the builder stores beside the task. */
  function PayloadFor(kind: TaskType, logical: nat): Document {
    if Fixed(kind) then Document(None) else Document(Some(logical))
  }

  function PayloadVersion(read: PayloadRead): Option<nat> {
    match read
    case Unreadable => None
    case Object(document) => document.version
    case JsonText(None) => None
    case JsonText(Some(document)) => document.version
  }

  /** `active` is the content of the active scenario artifact, if there is one. */
  function ResolveLogicalVersion(kind: TaskType, read: PayloadRead, active: Option<Document>): nat {
    if !Fixed(kind) && PayloadVersion(read).Some? then PayloadVersion(read).value
    else if kind.ReviewScenario? && active.Some? && active.value.version.Some? then active.value.version.value
    else 1
  }

  /** The payload of a task that the builder created, as the store may return it. */
  predicate ReadOf(read: PayloadRead, kind: TaskType, logical: nat) {
    || read == Unreadable
    || read == Object(PayloadFor(kind, logical))
    || read == JsonText(Some(PayloadFor(kind, logical)))
  }

  /** The version the worker falls back to when it cannot read the payload. */
  function Fallback(kind: TaskType, active: Option<Document>): nat {
    match (kind, active)
    case (ReviewScenario, Some(Document(Some(version)))) => version
    case _ => 1
  }

  /** Key agreement: for every task the builder creates, the worker arrives at the
      stored key exactly when the payload is readable, or the task is of a kind
      that is always version 1, or the fallback version happens to be the right one. */
  lemma WorkerAgreesOnTheKey(
    workflowId: string, kind: TaskType, scenario: nat, increment: bool, attempt: nat,
    read: PayloadRead, active: Option<Document>)
    requires ReadOf(read, kind, ResolveForTask(kind, scenario, increment))
    ensures
      var task := NewTask(kind, ResolveForTask(kind, scenario, increment), attempt);
      var version := ResolveLogicalVersion(kind, read, active);
      KeyText(workflowId, Key(kind, version)) == KeyText(workflowId, KeyOf(task))
      <==> Fixed(kind) || !read.Unreadable? || Fallback(kind, active) == task.logical
  {
    var task := NewTask(kind, ResolveForTask(kind, scenario, increment), attempt);
    var version := ResolveLogicalVersion(kind, read, active);
    if version != task.logical {
      if KeyText(workflowId, Key(kind, version)) == KeyText(workflowId, KeyOf(task)) {
        KeyTextIsInjective(workflowId, Key(kind, version), workflowId, KeyOf(task));
      }
    }
  }

  /** An unreadable payload makes a regenerated scenario look like the first one. */
  lemma UnreadablePayloadMistakesTheKey(workflowId: string)
    ensures
      var task := NewTask(GenerateScenario, ResolveForTask(GenerateScenario, 1, true), 1);
      var version := ResolveLogicalVersion(GenerateScenario, Unreadable, Some(Document(Some(1))));
      KeyText(workflowId, Key(GenerateScenario, version)) == KeyText(workflowId, Key(GenerateScenario, 1))
      && KeyText(workflowId, KeyOf(task)) != KeyText(workflowId, Key(GenerateScenario, 1))
  {
    var task := NewTask(GenerateScenario, ResolveForTask(GenerateScenario, 1, true), 1);
    if KeyText(workflowId, KeyOf(task)) == KeyText(workflowId, Key(GenerateScenario, 1)) {
      KeyTextIsInjective(workflowId, KeyOf(task), workflowId, Key(GenerateScenario, 1));
    }
  }
}
