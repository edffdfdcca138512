/** The task envelope on the queue: validation, the field map that goes into the
    stream, and what a worker reads back. */
module Envelope {
  import opened WorkflowTypes
  import opened Text
  import opened LogicalKeys
  import opened Calendar

  /** Names of stream fields and trace entries: the eight that the program knows,
      and any other. */
  datatype Name =
    | TaskIdField
    | WorkflowIdField
    | TaskTypeField
    | AttemptField
    | CreatedAtField
    | PayloadReferenceField
    | Traceparent
    | Tracestate
    | Other(text: string)

  /** A wall-clock reading and, unless it is naive, its distance from UTC, both in
      microseconds. */
  datatype DateTime = DateTime(wall: int, offset: Option<int>)

  datatype TaskMessage = TaskMessage(
    taskId: string,
    workflowId: string,
    kind: TaskType,
    attempt: int,
    createdAt: DateTime,
    payloadReference: string,
    carrier: map<Name, string>)

  type Fields = map<Name, string>

  /** `Overflow` is the OverflowError of a time that leaves years 1 to 9999 when it
      is moved to UTC. */
  datatype Encoded = Encoded(fields: Fields) | Refused(missing: seq<Name>) | EncodeOverflow

  datatype Decoded = Decoded(message: TaskMessage) | Malformed(missing: seq<Name>) | DecodeOverflow

  predicate Traced(name: Name) {
    name.Traceparent? || name.Tracestate?
  }

  // --- Time ---

  function Utc(t: DateTime): Option<DateTime> {
    if t.offset.None? || !InRange(t.wall - t.offset.value) then None
    else Some(DateTime(t.wall - t.offset.value, Some(0)))
  }

  /** The C library's %Y pads years below 1000 to four digits or it does not. */
  function YearText(pads: bool, year: nat): string {
    if pads then Padded(year, 4) else Decimal(year)
  }

  function ClockText(c: Civil): string {
    "-" + Padded(c.month, 2) + "-" + Padded(c.day, 2)
    + "T" + Padded(c.hour, 2) + ":" + Padded(c.minute, 2) + ":" + Padded(c.second, 2) + "." + Padded(c.micro, 6)
  }

  function TimeText(pads: bool, c: Civil): string {
    YearText(pads, c.year) + ClockText(c) + "Z"
  }

  function ReplaceZ(s: string): string {
    if s == "" then "" else ReplaceZ(s[..|s| - 1]) + if s[|s| - 1] == 'Z' then "+00:00" else [s[|s| - 1]]
  }

  predicate Layout(s: string) {
    && |s| == 32
    && Digits(s[0..4]) && s[4] == '-' && Digits(s[5..7]) && s[7] == '-' && Digits(s[8..10]) && s[10] == 'T'
    && Digits(s[11..13]) && s[13] == ':' && Digits(s[14..16]) && s[16] == ':' && Digits(s[17..19]) && s[19] == '.'
    && Digits(s[20..26]) && (s[26] == '+' || s[26] == '-') && Digits(s[27..29]) && s[29] == ':' && Digits(s[30..32])
  }

  function ReadCivil(s: string): Civil
    requires Layout(s)
  {
    Civil(Value(s[0..4]), Value(s[5..7]), Value(s[8..10]),
          Value(s[11..13]), Value(s[14..16]), Value(s[17..19]), Value(s[20..26]))
  }

  /** Python's parsers of times and whole numbers, which accept more than encoding
      writes. */
  datatype Parsers = Parsers(time: string -> Option<DateTime>, number: string -> Option<int>)

  /** fromisoformat reads the layout with microseconds and an offset in minutes. */
  ghost predicate ReadsTimes(p: Parsers) {
    forall s: string :: Layout(s) ==> p.time(s) == FromIso(s)
  }

  /** It reads nothing that does not start with a year of four digits. */
  ghost predicate WantsFourDigits(p: Parsers) {
    forall s: string :: p.time(s).Some? ==> |s| >= 4 && Digits(s[..4])
  }

  /** int reads plain numerals. */
  ghost predicate ReadsNumbers(p: Parsers) {
    forall s: string :: s != "" && Digits(s) ==> p.number(s) == Some(Value(s))
  }

  /** All that is assumed of the two parsers. */
  ghost predicate ValidParsers(p: Parsers) {
    ReadsTimes(p) && WantsFourDigits(p) && ReadsNumbers(p)
  }

  /** fromisoformat, on the layout with microseconds and an offset in minutes. */
  function FromIso(s: string): Option<DateTime> {
    if !Layout(s) then None
    else
      var c := ReadCivil(s);
      var hours, minutes := Value(s[27..29]), Value(s[30..32]);
      if !ValidCivil(c) || hours >= 24 || minutes >= 60 then None
      else
        var offset := (hours * 60 + minutes) * 60_000_000;
        Some(DateTime(Wall(c), Some(if s[26] == '+' then offset else -offset)))
  }

  function ParseCreatedAt(p: Parsers, raw: string): Option<DateTime> {
    var parsed := p.time(ReplaceZ(Strip(raw)));
    if parsed.Some? && parsed.value.offset.None? then None else parsed
  }

  // --- Validation ---

  function NonEmpty(value: Option<string>): Option<string> {
    if value.None? || Strip(value.value) == "" then None else Some(Strip(value.value))
  }

  function Flag(absent: bool, name: Name): seq<Name> {
    if absent then [name] else []
  }

  /** What `validate` complains about. */
  function Missing(m: TaskMessage): seq<Name> {
    Flag(Strip(m.taskId) == "", TaskIdField)
    + Flag(Strip(m.workflowId) == "", WorkflowIdField)
    + Flag(Strip(m.payloadReference) == "", PayloadReferenceField)
    + Flag(m.attempt < 1, AttemptField)
    + Flag(m.createdAt.offset.None?, CreatedAtField)
  }

  function ParseType(raw: Option<string>): Option<TaskType> {
    if raw.None? then None
    else
      var name := Strip(raw.value);
      if name == TypeName(Collect) then Some(Collect)
      else if name == TypeName(SelectTopic) then Some(SelectTopic)
      else if name == TypeName(GenerateScenario) then Some(GenerateScenario)
      else if name == TypeName(ReviewScenario) then Some(ReviewScenario)
      else None
  }

  function ParseAttempt(p: Parsers, raw: Option<string>): Option<int> {
    if raw.None? || Strip(raw.value) == "" then None
    else
      var parsed := p.number(Strip(raw.value));
      if parsed.Some? && parsed.value < 1 then None else parsed
  }

  function ParseTime(p: Parsers, raw: Option<string>): Option<DateTime> {
    if raw.None? || Strip(raw.value) == "" then None else ParseCreatedAt(p, raw.value)
  }

  // --- Serialization ---

  function Get(fields: Fields, name: Name): Option<string> {
    if name in fields then Some(fields[name]) else None
  }

  /** The trace entries that travel: the two known ones, when they are not empty. */
  function Carried(carrier: map<Name, string>): map<Name, string> {
    map k | k in carrier && Traced(k) && carrier[k] != "" :: carrier[k]
  }

  function FieldMap(m: TaskMessage, createdAt: string): Fields
    requires m.attempt >= 0
  {
    map[
      TaskIdField := m.taskId,
      WorkflowIdField := m.workflowId,
      TaskTypeField := TypeName(m.kind),
      AttemptField := Decimal(m.attempt),
      CreatedAtField := createdAt,
      PayloadReferenceField := m.payloadReference
    ] + Carried(m.carrier)
  }

  function Encode(pads: bool, m: TaskMessage): Encoded {
    if Missing(m) != [] then Refused(Missing(m))
    else if Utc(m.createdAt).None? then EncodeOverflow
    else Encoded(FieldMap(m, TimeText(pads, CivilOf(Utc(m.createdAt).value.wall))))
  }

  /** The second half of decoding, when every field has been read or not. */
  function Assemble(
    taskId: Option<string>, workflowId: Option<string>, payloadReference: Option<string>,
    kind: Option<TaskType>, attempt: Option<int>, createdAt: Option<DateTime>, carrier: map<Name, string>): Decoded
  {
    if createdAt.Some? && Utc(createdAt.value).None? then DecodeOverflow
    else
      var missing :=
        Flag(taskId.None?, TaskIdField) + Flag(workflowId.None?, WorkflowIdField)
        + Flag(payloadReference.None?, PayloadReferenceField)
        + Flag(kind.None?, TaskTypeField) + Flag(attempt.None?, AttemptField) + Flag(createdAt.None?, CreatedAtField);
      if missing != [] then Malformed(missing)
      else
        Decoded(TaskMessage(taskId.value, workflowId.value, kind.value, attempt.value, Utc(createdAt.value).value,
                            payloadReference.value, carrier))
  }

  function Decode(p: Parsers, fields: Fields): Decoded {
    Assemble(
      NonEmpty(Get(fields, TaskIdField)), NonEmpty(Get(fields, WorkflowIdField)),
      NonEmpty(Get(fields, PayloadReferenceField)), ParseType(Get(fields, TaskTypeField)),
      ParseAttempt(p, Get(fields, AttemptField)), ParseTime(p, Get(fields, CreatedAtField)), Carried(fields))
  }

  /** A message as the other side of the queue sees it. */
  function Normalized(m: TaskMessage): TaskMessage
    requires Utc(m.createdAt).Some?
  {
    m.(taskId := Strip(m.taskId), workflowId := Strip(m.workflowId), payloadReference := Strip(m.payloadReference),
       createdAt := Utc(m.createdAt).value, carrier := Carried(m.carrier))
  }

  /** The assumptions can be met, by a reader of the written layout and of plain
      numerals. */
  lemma ParsersExist() returns (p: Parsers)
    ensures ValidParsers(p)
  {
    p := Parsers(s => FromIso(s), s => if s != "" && Digits(s) then Some(Value(s)) else None);
    forall s: string | p.time(s).Some? ensures |s| >= 4 && Digits(s[..4]) {
      assert s[..4] == s[0..4];
    }
  }

  // --- Time round trip ---

  lemma {:induction false} ReplaceZKeeps(s: string)
    requires 'Z' !in s
    ensures ReplaceZ(s) == s
  {
    if s != "" {
      ReplaceZKeeps(s[..|s| - 1]);
      assert s == s[..|s| - 1] + [s[|s| - 1]];
    }
  }

  lemma ReplaceZAtTheEnd(s: string)
    requires 'Z' !in s
    ensures ReplaceZ(s + "Z") == s + "+00:00"
  {
    ReplaceZKeeps(s);
    assert (s + "Z")[..|s|] == s;
  }

  lemma FieldTexts(c: Civil)
    requires ValidCivil(c)
    ensures |Padded(c.year, 4)| == 4 && Digits(Padded(c.year, 4)) && Value(Padded(c.year, 4)) == c.year
    ensures |Padded(c.month, 2)| == 2 && Digits(Padded(c.month, 2)) && Value(Padded(c.month, 2)) == c.month
    ensures |Padded(c.day, 2)| == 2 && Digits(Padded(c.day, 2)) && Value(Padded(c.day, 2)) == c.day
    ensures |Padded(c.hour, 2)| == 2 && Digits(Padded(c.hour, 2)) && Value(Padded(c.hour, 2)) == c.hour
    ensures |Padded(c.minute, 2)| == 2 && Digits(Padded(c.minute, 2)) && Value(Padded(c.minute, 2)) == c.minute
    ensures |Padded(c.second, 2)| == 2 && Digits(Padded(c.second, 2)) && Value(Padded(c.second, 2)) == c.second
    ensures |Padded(c.micro, 6)| == 6 && Digits(Padded(c.micro, 6)) && Value(Padded(c.micro, 6)) == c.micro
  {
    Powers();
    ValueOfPadded(c.year, 4);
    ValueOfPadded(c.month, 2);
    ValueOfPadded(c.day, 2);
    ValueOfPadded(c.hour, 2);
    ValueOfPadded(c.minute, 2);
    ValueOfPadded(c.second, 2);
    ValueOfPadded(c.micro, 6);
  }

  lemma Powers()
    ensures Power10(2) == 100 && Power10(3) == 1000 && Power10(4) == 10_000 && Power10(6) == 1_000_000
  {
    assert Power10(1) == 10;
    assert Power10(5) == 100_000;
  }

  /** Where the fields stand in the text. */
  lemma Slices(y: string, mo: string, d: string, h: string, mi: string, sec: string, mu: string, s: string)
    requires |y| == 4 && |mo| == 2 && |d| == 2 && |h| == 2 && |mi| == 2 && |sec| == 2 && |mu| == 6
    requires s == y + ("-" + mo + "-" + d + "T" + h + ":" + mi + ":" + sec + "." + mu) + "+00:00"
    ensures |s| == 32 && s[0..4] == y && s[4] == '-' && s[5..7] == mo && s[7] == '-' && s[8..10] == d && s[10] == 'T'
    ensures s[11..13] == h && s[13] == ':' && s[14..16] == mi && s[16] == ':' && s[17..19] == sec && s[19] == '.'
    ensures s[20..26] == mu && s[26] == '+' && s[27..29] == "00" && s[29] == ':' && s[30..32] == "00"
  {
  }

  lemma {:induction false} ClockTextReads(c: Civil)
    requires ValidCivil(c)
    ensures
      var s := Padded(c.year, 4) + ClockText(c) + "+00:00";
      Layout(s) && ReadCivil(s) == c && FromIso(s) == Some(DateTime(Wall(c), Some(0)))
  {
    FieldTexts(c);
    var s := Padded(c.year, 4) + ClockText(c) + "+00:00";
    Slices(Padded(c.year, 4), Padded(c.month, 2), Padded(c.day, 2), Padded(c.hour, 2), Padded(c.minute, 2),
           Padded(c.second, 2), Padded(c.micro, 6), s);
    assert Layout(s);
    assert Value("00") == 0 by {
      assert "00"[..1] == "0" && "0"[..0] == "";
    }
  }

  lemma ClockTextShape(c: Civil)
    requires ValidCivil(c)
    ensures |ClockText(c)| == 22 && 'Z' !in ClockText(c) && ClockText(c)[0] == '-'
  {
    FieldTexts(c);
  }

  lemma {:induction false} DecimalOfFourDigits(n: nat)
    ensures 1000 <= n <= 9999 ==> Decimal(n) == Padded(n, 4)
    ensures n < 1000 ==> |Decimal(n)| < 4
  {
    if n < 1000 {
      assert |Decimal(n / 10)| < 3 by {
        assert |Decimal(n / 10 / 10)| == 1;
      }
    } else if n <= 9999 {
      assert Decimal(n / 1000) == Padded(n / 1000, 1);
      assert n / 100 / 10 == n / 1000 && Decimal(n / 100) == Padded(n / 100, 2);
      assert n / 10 / 10 == n / 100 && Decimal(n / 10) == Padded(n / 10, 3);
    }
  }

  /** What the parser of times is given for the text of a time. */
  lemma {:induction false} TimeTextNormalizes(pads: bool, c: Civil)
    requires ValidCivil(c)
    ensures Strip(TimeText(pads, c)) != ""
    ensures ReplaceZ(Strip(TimeText(pads, c))) == YearText(pads, c.year) + ClockText(c) + "+00:00"
  {
    var year, text := YearText(pads, c.year), TimeText(pads, c);
    FieldTexts(c);
    ValueOfDecimal(c.year);
    ClockTextShape(c);
    assert Digits(year) && year != "";
    assert text[0] == year[0] && text[|text| - 1] == 'Z';
    StripKeepsStripped(text);
    ReplaceZAtTheEnd(year + ClockText(c));
  }

  lemma YearTextShape(pads: bool, c: Civil)
    requires ValidCivil(c)
    ensures pads || c.year >= 1000 ==> YearText(pads, c.year) == Padded(c.year, 4) && |Padded(c.year, 4)| == 4
    ensures !pads && c.year < 1000 ==> |YearText(pads, c.year)| < 4
  {
    DecimalOfFourDigits(c.year);
    FieldTexts(c);
  }

  /** The text of a time reads back exactly when its year has four digits. */
  lemma {:induction false} TimeTextReads(p: Parsers, pads: bool, c: Civil)
    requires ReadsTimes(p) && WantsFourDigits(p)
    requires ValidCivil(c)
    ensures
      ParseTime(p, Some(TimeText(pads, c))) ==
      if pads || c.year >= 1000 then Some(DateTime(Wall(c), Some(0))) else None
  {
    TimeTextNormalizes(pads, c);
    YearTextShape(pads, c);
    NormalTextReads(p, YearText(pads, c.year), c);
  }

  lemma {:induction false} NormalTextReads(p: Parsers, year: string, c: Civil)
    requires ReadsTimes(p) && WantsFourDigits(p) && ValidCivil(c)
    requires |year| < 4 || (|year| == 4 && year == Padded(c.year, 4))
    ensures p.time(year + ClockText(c) + "+00:00")
         == if |year| == 4 then Some(DateTime(Wall(c), Some(0))) else None
  {
    if |year| == 4 {
      LongYearIsRead(p, c);
    } else {
      ShortYearIsNotRead(p, year, c);
    }
  }

  lemma {:induction false} LongYearIsRead(p: Parsers, c: Civil)
    requires ReadsTimes(p) && ValidCivil(c)
    ensures p.time(Padded(c.year, 4) + ClockText(c) + "+00:00") == Some(DateTime(Wall(c), Some(0)))
  {
    ClockTextReads(c);
  }

  lemma {:induction false} ShortYearIsNotRead(p: Parsers, year: string, c: Civil)
    requires WantsFourDigits(p) && ValidCivil(c) && |year| < 4
    ensures p.time(year + ClockText(c) + "+00:00").None?
  {
    ClockTextShape(c);
    var text := year + ClockText(c) + "+00:00";
    assert text[|year|] == '-';
    NotAllDigits(text, |year|);
  }

  lemma NotAllDigits(s: string, i: nat)
    requires i < 4 <= |s| && s[i] == '-'
    ensures !Digits(s[..4])
  {
    assert s[..4][i] == s[i];
  }

  /** What moving to UTC means: the same instant, read on the clock of UTC. */
  lemma UtcMeans(t: DateTime)
    ensures Utc(t).Some? ==>
      Utc(t).value.offset == Some(0) && t.offset.Some? && Utc(t).value.wall + t.offset.value == t.wall
    ensures Utc(t).None? <==> t.offset.None? || !InRange(t.wall - t.offset.value)
  {
  }

  /** A time as it is written: four digits for the year, two for the others, six for the
      microseconds, in the order and with the marks of ISO 8601. */
  lemma {:induction false} TimeTextMeans(c: Civil)
    requires ValidCivil(c)
    ensures
      var s := TimeText(true, c);
      && |s| == 27 && s[4] == '-' && s[7] == '-' && s[10] == 'T' && s[13] == ':' && s[16] == ':' && s[19] == '.'
      && s[26] == 'Z'
      && Digits(s[0..4]) && Value(s[0..4]) == c.year && Digits(s[5..7]) && Value(s[5..7]) == c.month
      && Digits(s[8..10]) && Value(s[8..10]) == c.day && Digits(s[11..13]) && Value(s[11..13]) == c.hour
      && Digits(s[14..16]) && Value(s[14..16]) == c.minute && Digits(s[17..19]) && Value(s[17..19]) == c.second
      && Digits(s[20..26]) && Value(s[20..26]) == c.micro
  {
    FieldTexts(c);
    WrittenSlices(Padded(c.year, 4), Padded(c.month, 2), Padded(c.day, 2), Padded(c.hour, 2), Padded(c.minute, 2),
                  Padded(c.second, 2), Padded(c.micro, 6), TimeText(true, c));
  }

  lemma WrittenSlices(y: string, mo: string, d: string, h: string, mi: string, sec: string, mu: string, s: string)
    requires |y| == 4 && |mo| == 2 && |d| == 2 && |h| == 2 && |mi| == 2 && |sec| == 2 && |mu| == 6
    requires s == y + ("-" + mo + "-" + d + "T" + h + ":" + mi + ":" + sec + "." + mu) + "Z"
    ensures |s| == 27 && s[0..4] == y && s[4] == '-' && s[5..7] == mo && s[7] == '-' && s[8..10] == d && s[10] == 'T'
    ensures s[11..13] == h && s[13] == ':' && s[14..16] == mi && s[16] == ':' && s[17..19] == sec && s[19] == '.'
    ensures s[20..26] == mu && s[26] == 'Z'
  {
  }

  // --- Message round trip ---

  /** Exactly the two known trace entries travel, when they are not empty, unchanged. */
  lemma CarriedMeans(carrier: map<Name, string>, k: Name)
    ensures k in Carried(carrier) <==> k in carrier && k in {Traceparent, Tracestate} && carrier[k] != ""
    ensures k in Carried(carrier) ==> Carried(carrier)[k] == carrier[k]
  {
  }

  /** A refused message is told exactly what is wrong with it. */
  lemma MissingMeans(m: TaskMessage)
    ensures TaskIdField in Missing(m) <==> forall i :: 0 <= i < |m.taskId| ==> Blank(m.taskId[i])
    ensures WorkflowIdField in Missing(m) <==> forall i :: 0 <= i < |m.workflowId| ==> Blank(m.workflowId[i])
    ensures PayloadReferenceField in Missing(m) <==>
      forall i :: 0 <= i < |m.payloadReference| ==> Blank(m.payloadReference[i])
    ensures AttemptField in Missing(m) <==> m.attempt < 1
    ensures CreatedAtField in Missing(m) <==> m.createdAt.offset.None?
    ensures TaskTypeField !in Missing(m)
  {
    StripIsStripped(m.taskId);
    StripIsStripped(m.workflowId);
    StripIsStripped(m.payloadReference);
    FlagsMean(Strip(m.taskId) == "", Strip(m.workflowId) == "", Strip(m.payloadReference) == "", false,
              m.attempt < 1, m.createdAt.offset.None?);
    assert Flag(false, TaskTypeField) == [];
  }

  /** And so is a worker that reads a malformed one. */
  lemma {:induction false} MalformedMeans(p: Parsers, fields: Fields)
    requires Decode(p, fields).Malformed?
    ensures
      var missing := Decode(p, fields).missing;
      && missing != []
      && (TaskIdField in missing <==> NonEmpty(Get(fields, TaskIdField)).None?)
      && (WorkflowIdField in missing <==> NonEmpty(Get(fields, WorkflowIdField)).None?)
      && (PayloadReferenceField in missing <==> NonEmpty(Get(fields, PayloadReferenceField)).None?)
      && (TaskTypeField in missing <==> ParseType(Get(fields, TaskTypeField)).None?)
      && (AttemptField in missing <==> ParseAttempt(p, Get(fields, AttemptField)).None?)
      && (CreatedAtField in missing <==> ParseTime(p, Get(fields, CreatedAtField)).None?)
  {
    FlagsMean(NonEmpty(Get(fields, TaskIdField)).None?, NonEmpty(Get(fields, WorkflowIdField)).None?,
              NonEmpty(Get(fields, PayloadReferenceField)).None?, ParseType(Get(fields, TaskTypeField)).None?,
              ParseAttempt(p, Get(fields, AttemptField)).None?, ParseTime(p, Get(fields, CreatedAtField)).None?);
  }

  /** The time of an entry is what the parser reads of it; a naive one counts as none. */
  lemma EntryTimeMeans(p: Parsers, fields: Fields)
    ensures
      var read := if CreatedAtField in fields && Strip(fields[CreatedAtField]) != ""
                  then p.time(ReplaceZ(Strip(fields[CreatedAtField]))) else None;
      && (read.Some? && read.value.offset.Some? ==> ParseTime(p, Get(fields, CreatedAtField)) == read)
      && (read.None? || read.value.offset.None? ==> ParseTime(p, Get(fields, CreatedAtField)).None?)
  {
  }

  /** A time that leaves the calendar in UTC is an error of its own, whatever else is
      wrong with the entry. */
  lemma OverflowMeans(p: Parsers, fields: Fields)
    ensures
      var t := ParseTime(p, Get(fields, CreatedAtField));
      Decode(p, fields).DecodeOverflow? <==>
        t.Some? && (t.value.offset.None? || !InRange(t.value.wall - t.value.offset.value))
  {
    var createdAt := ParseTime(p, Get(fields, CreatedAtField));
    if createdAt.Some? {
      UtcMeans(createdAt.value);
    }
    AssembleOverflows(
      NonEmpty(Get(fields, TaskIdField)), NonEmpty(Get(fields, WorkflowIdField)),
      NonEmpty(Get(fields, PayloadReferenceField)), ParseType(Get(fields, TaskTypeField)),
      ParseAttempt(p, Get(fields, AttemptField)), createdAt, Carried(fields));
  }

  lemma AssembleOverflows(
    taskId: Option<string>, workflowId: Option<string>, payloadReference: Option<string>,
    kind: Option<TaskType>, attempt: Option<int>, createdAt: Option<DateTime>, carrier: map<Name, string>)
    ensures Assemble(taskId, workflowId, payloadReference, kind, attempt, createdAt, carrier).DecodeOverflow?
       <==> createdAt.Some? && Utc(createdAt.value).None?
  {
  }

  lemma FlagsMean(a: bool, b: bool, c: bool, d: bool, e: bool, f: bool)
    ensures
      var missing :=
        Flag(a, TaskIdField) + Flag(b, WorkflowIdField) + Flag(c, PayloadReferenceField)
        + Flag(d, TaskTypeField) + Flag(e, AttemptField) + Flag(f, CreatedAtField);
      && (TaskIdField in missing <==> a) && (WorkflowIdField in missing <==> b)
      && (PayloadReferenceField in missing <==> c) && (TaskTypeField in missing <==> d)
      && (AttemptField in missing <==> e) && (CreatedAtField in missing <==> f)
  {
  }

  lemma TypeReads(kind: TaskType)
    ensures ParseType(Some(TypeName(kind))) == Some(kind)
  {
    StripKeepsStripped(TypeName(kind));
    assert TypeName(Collect)[0] == 'C' && TypeName(SelectTopic)[0] == 'S';
    assert TypeName(GenerateScenario)[0] == 'G' && TypeName(ReviewScenario)[0] == 'R';
  }

  lemma AttemptReads(p: Parsers, attempt: nat)
    requires ReadsNumbers(p)
    requires attempt >= 1
    ensures ParseAttempt(p, Some(Decimal(attempt))) == Some(attempt)
  {
    ValueOfDecimal(attempt);
    DigitsAreNotBlank(Decimal(attempt));
    StripKeepsStripped(Decimal(attempt));
  }

  /** The names of the required fields are no trace entries. */
  lemma FieldsReadBack(m: TaskMessage, createdAt: string)
    requires m.attempt >= 0
    ensures
      var f := FieldMap(m, createdAt);
      && Get(f, TaskIdField) == Some(m.taskId) && Get(f, WorkflowIdField) == Some(m.workflowId)
      && Get(f, PayloadReferenceField) == Some(m.payloadReference)
      && Get(f, TaskTypeField) == Some(TypeName(m.kind)) && Get(f, AttemptField) == Some(Decimal(m.attempt))
      && Get(f, CreatedAtField) == Some(createdAt)
  {
  }

  lemma CarrierReadsBack(m: TaskMessage, createdAt: string)
    requires m.attempt >= 0
    ensures Carried(FieldMap(m, createdAt)) == Carried(m.carrier)
  {
  }

  /** Encoding refuses exactly the invalid messages, and names what is wrong. */
  lemma EncodesExactlyTheValid(pads: bool, m: TaskMessage)
    ensures Encode(pads, m).Encoded? <==>
      && Strip(m.taskId) != "" && Strip(m.workflowId) != "" && Strip(m.payloadReference) != ""
      && m.attempt >= 1 && m.createdAt.offset.Some? && InRange(m.createdAt.wall - m.createdAt.offset.value)
  {
  }

  /** Decoding a field map depends on the text of the time alone. */
  lemma {:induction false} DecodesFieldMap(p: Parsers, m: TaskMessage, createdAt: string)
    requires ReadsNumbers(p)
    requires Missing(m) == []
    ensures Decode(p, FieldMap(m, createdAt)) ==
      Assemble(Some(Strip(m.taskId)), Some(Strip(m.workflowId)), Some(Strip(m.payloadReference)),
               Some(m.kind), Some(m.attempt), ParseTime(p, Some(createdAt)), Carried(m.carrier))
  {
    FieldsReadBack(m, createdAt);
    CarrierReadsBack(m, createdAt);
    TypeReads(m.kind);
    AttemptReads(p, m.attempt);
  }

  /** Round trip: every message that goes into the queue comes out of it, with its
      ids trimmed, its time in UTC and the known, non-empty trace entries, exactly
      when the year was written with four digits. */
  lemma {:induction false} RoundTrip(p: Parsers, pads: bool, m: TaskMessage)
    requires ValidParsers(p)
    requires Encode(pads, m).Encoded?
    ensures
      var year := CivilOf(Utc(m.createdAt).value.wall).year;
      Decode(p, Encode(pads, m).fields) ==
      if pads || year >= 1000 then Decoded(Normalized(m)) else Malformed([CreatedAtField])
  {
    var wall := Utc(m.createdAt).value.wall;
    var text := TimeText(pads, CivilOf(wall));
    UtcIsReadBack(p, pads, m.createdAt);
    UtcOfUtc(m.createdAt);
    DecodesFieldMap(p, m, text);
    AssemblesWhenRead(Strip(m.taskId), Strip(m.workflowId), Strip(m.payloadReference), m.kind, m.attempt,
                      ParseTime(p, Some(text)), Carried(m.carrier));
  }

  lemma {:induction false} UtcIsReadBack(p: Parsers, pads: bool, t: DateTime)
    requires ReadsTimes(p) && WantsFourDigits(p)
    requires Utc(t).Some?
    ensures
      var c := CivilOf(Utc(t).value.wall);
      ParseTime(p, Some(TimeText(pads, c))) == if pads || c.year >= 1000 then Utc(t) else None
  {
    WallIsReadBack(p, pads, Utc(t).value.wall);
  }

  lemma UtcOfUtc(t: DateTime)
    requires Utc(t).Some?
    ensures Utc(Utc(t).value) == Utc(t)
  {
  }

  lemma {:induction false} WallIsReadBack(p: Parsers, pads: bool, wall: nat)
    requires ReadsTimes(p) && WantsFourDigits(p)
    requires InRange(wall)
    ensures
      var c := CivilOf(wall);
      ParseTime(p, Some(TimeText(pads, c))) == if pads || c.year >= 1000 then Some(DateTime(wall, Some(0))) else None
  {
    var c := CivilOf(wall);
    CalendarRoundTrip(wall);
    TimeTextReads(p, pads, c);
  }

  lemma AssemblesWhenRead(
    taskId: string, workflowId: string, payloadReference: string, kind: TaskType, attempt: int,
    createdAt: Option<DateTime>, carrier: map<Name, string>)
    requires createdAt.Some? ==> Utc(createdAt.value) == createdAt
    ensures
      Assemble(Some(taskId), Some(workflowId), Some(payloadReference), Some(kind), Some(attempt), createdAt, carrier) ==
      if createdAt.None? then Malformed([CreatedAtField])
      else Decoded(TaskMessage(taskId, workflowId, kind, attempt, createdAt.value, payloadReference, carrier))
  {
  }

  /** What comes out of the queue is valid and in normal form, whoever put it in. */
  lemma {:induction false} DecodedIsNormal(p: Parsers, fields: Fields)
    requires Decode(p, fields).Decoded?
    ensures
      var m := Decode(p, fields).message;
      Missing(m) == [] && Utc(m.createdAt).Some? && Normalized(m) == m
  {
    NonEmptyIsStripped(Get(fields, TaskIdField));
    NonEmptyIsStripped(Get(fields, WorkflowIdField));
    NonEmptyIsStripped(Get(fields, PayloadReferenceField));
    AttemptIsPositive(p, Get(fields, AttemptField));
    AssembledIsNormal(
      NonEmpty(Get(fields, TaskIdField)), NonEmpty(Get(fields, WorkflowIdField)),
      NonEmpty(Get(fields, PayloadReferenceField)), ParseType(Get(fields, TaskTypeField)),
      ParseAttempt(p, Get(fields, AttemptField)), ParseTime(p, Get(fields, CreatedAtField)), fields);
  }

  predicate Trimmed(value: Option<string>) {
    value.Some? ==> value.value != "" && Strip(value.value) == value.value
  }

  lemma {:induction false} AssembledIsNormal(
    taskId: Option<string>, workflowId: Option<string>, payloadReference: Option<string>,
    kind: Option<TaskType>, attempt: Option<int>, createdAt: Option<DateTime>, fields: Fields)
    requires Trimmed(taskId) && Trimmed(workflowId) && Trimmed(payloadReference)
    requires attempt.Some? ==> attempt.value >= 1
    requires Assemble(taskId, workflowId, payloadReference, kind, attempt, createdAt, Carried(fields)).Decoded?
    ensures
      var m := Assemble(taskId, workflowId, payloadReference, kind, attempt, createdAt, Carried(fields)).message;
      Missing(m) == [] && Utc(m.createdAt).Some? && Normalized(m) == m
  {
    assert Carried(Carried(fields)) == Carried(fields);
  }

  lemma NonEmptyIsStripped(value: Option<string>)
    ensures Trimmed(NonEmpty(value))
  {
    if value.Some? {
      StripIsStripped(value.value);
      StripKeepsStripped(Strip(value.value));
    }
  }

  lemma AttemptIsPositive(p: Parsers, raw: Option<string>)
    ensures ParseAttempt(p, raw).Some? ==> ParseAttempt(p, raw).value >= 1
  {
  }

  /** Where %Y does not pad, a task of an early year is read as malformed. */
  lemma {:induction false} UnpaddedYearIsLost(p: Parsers, m: TaskMessage)
    requires ValidParsers(p)
    requires Missing(m) == [] && m.createdAt == DateTime(0, Some(0))
    ensures Encode(false, m).Encoded? && Decode(p, Encode(false, m).fields) == Malformed([CreatedAtField])
  {
    YearOneIsInRange();
    RoundTrip(p, false, m);
  }

  lemma {:induction false} YearOneIsInRange()
    ensures InRange(0) && CivilOf(0).year == 1
  {
    YearLengthIsUsual(1);
  }
}
