/** The coordinator's publisher loop: enqueue an outbox row with capped
    exponential backoff, then mark it published with the same backoff. */
module OutboxPublisher {
  import opened WorkflowTypes

  // --- Backoff ---

  function Power2(i: nat): (p: nat)
    ensures p >= 1
  {
    if i == 0 then 1 else 2 * Power2(i - 1)
  }

  function Min(a: real, b: real): real {
    if a <= b then a else b
  }

  /** The delay after failed attempt number i, counted from zero. */
  function Delay(initial: real, max: real, i: nat): real {
    Min(initial * Power2(i) as real, max)
  }

  /** Python's range of a negative number is empty. */
  function Attempts(maxAttempts: int): nat {
    if maxAttempts < 0 then 0 else maxAttempts
  }

  method OutboxRetrySchedule(initial: real, max: real, maxAttempts: int) returns (delays: seq<real>)
    ensures |delays| == Attempts(maxAttempts)
    ensures forall i :: 0 <= i < |delays| ==> delays[i] == Delay(initial, max, i)
  {
    delays := [];
    var delay := initial;
    for n := 0 to Attempts(maxAttempts)
      invariant |delays| == n
      invariant delay == initial * Power2(n) as real
      invariant forall i :: 0 <= i < n ==> delays[i] == Delay(initial, max, i)
    {
      delays := delays + [Min(delay, max)];
      delay := delay * 2.0;
    }
  }

  lemma {:induction false} PowersGrow(i: nat, j: nat)
    requires i <= j
    ensures Power2(i) <= Power2(j)
  {
    if i < j {
      PowersGrow(i, j - 1);
    }
  }

  /** Delays never shrink and never exceed the cap; past the cap they stay there. */
  lemma DelaysNeverShrink(initial: real, max: real, i: nat, j: nat)
    requires initial > 0.0 && i <= j
    ensures Delay(initial, max, i) <= Delay(initial, max, j) <= max
    ensures Delay(initial, max, i) == max ==> Delay(initial, max, j) == max
  {
    PowersGrow(i, j);
    var a, b := Power2(i) as real, Power2(j) as real;
    Scale(initial, a, b);
    MinIsMonotone(initial * a, initial * b, max);
  }

  lemma MinIsMonotone(a: real, b: real, max: real)
    requires a <= b
    ensures Min(a, max) <= Min(b, max) <= max
    ensures Min(a, max) == max ==> Min(b, max) == max
  {
  }

  lemma Scale(k: real, a: real, b: real)
    requires k >= 0.0 && a <= b
    ensures k * a <= k * b
  {
    assert k * (b - a) >= 0.0;
  }

  /** Time slept through the first k delays; a delay that is not positive is skipped. */
  function TotalSleep(initial: real, max: real, k: nat): real {
    if k == 0 then 0.0
    else
      var delay := Delay(initial, max, k - 1);
      TotalSleep(initial, max, k - 1) + if delay > 0.0 then delay else 0.0
  }

  /** The longest k sleeps can take together. */
  function Budget(k: nat, max: real): real {
    k as real * max
  }

  lemma BudgetGrows(k: nat, max: real)
    ensures Budget(k + 1, max) == Budget(k, max) + max
  {
    assert (k + 1) as real == k as real + 1.0;
  }

  lemma {:induction false} SleepIsCapped(initial: real, max: real, k: nat)
    requires max >= 0.0
    ensures 0.0 <= TotalSleep(initial, max, k) <= Budget(k, max)
  {
    if k > 0 {
      SleepIsCapped(initial, max, k - 1);
      BudgetGrows(k - 1, max);
    }
  }

  lemma {:induction false} SleepGrows(initial: real, max: real, k: nat, n: nat)
    requires k <= n
    ensures TotalSleep(initial, max, k) <= TotalSleep(initial, max, n)
  {
    if k < n {
      SleepGrows(initial, max, k, n - 1);
    }
  }

  // --- One row ---

  /** How the queue or the repository answers one call. `Unavailable` is every
      error the retry loops catch, `Broken` every error they do not know. */
  datatype Reply = Accepted | InvalidMessage | Unavailable | Broken

  /** `Fatal` is an exception that the batch does not catch either. */
  datatype Verdict = Published | Permanent | Transient | Fatal

  /** Number of the first call that is answered by something else than an
      unavailability, or n when all n calls are. */
  function Settled(reply: nat -> Reply, n: nat): (k: nat)
    ensures k <= n
    ensures forall i :: 0 <= i < k ==> reply(i).Unavailable?
    ensures k < n ==> !reply(k).Unavailable?
  {
    if n == 0 then 0
    else
      var k := Settled(reply, n - 1);
      if k < n - 1 || !reply(n - 1).Unavailable? then k else n
  }

  lemma SettledWhere(reply: nat -> Reply, n: nat, k: nat)
    requires k <= n
    requires forall i :: 0 <= i < k ==> reply(i).Unavailable?
    requires k < n ==> !reply(k).Unavailable?
    ensures Settled(reply, n) == k
  {
  }

  function EnqueueVerdict(reply: nat -> Reply, n: nat): Verdict {
    var k := Settled(reply, n);
    if k == n then Transient
    else match reply(k)
      case Accepted => Published
      case InvalidMessage => Permanent
      case _ => Fatal
  }

  /** Marking catches only unavailability. */
  function MarkVerdict(reply: nat -> Reply, n: nat): Verdict {
    var k := Settled(reply, n);
    if k == n then Transient else if reply(k).Accepted? then Published else Fatal
  }

  /** Sleeps between the calls: one after each failed call but the last. */
  function Naps(reply: nat -> Reply, n: nat): nat {
    var k := Settled(reply, n);
    if k == n && n > 0 then n - 1 else k
  }

  /** A successful call. */
  datatype Act = Enqueued(row: nat) | Marked(row: nat)

  /** The answers that the rows of one batch will get. */
  datatype Environment = Environment(taskFound: nat -> bool, enqueue: nat -> nat -> Reply, mark: nat -> nat -> Reply)

  datatype BatchResult = BatchResult(fetched: nat, published: nat, failed: nat, skipped: nat)

  const INITIAL_SECONDS := 1.0
  const MAX_SECONDS := 30.0
  const MAX_ATTEMPTS := 5

  /** Every mark comes after an enqueue of the same row. */
  ghost predicate Ordered(log: seq<Act>) {
    forall i :: 0 <= i < |log| && log[i].Marked? ==> exists j :: 0 <= j < i && log[j] == Enqueued(log[i].row)
  }

  function Marks(log: seq<Act>): nat {
    if log == [] then 0 else Marks(log[..|log| - 1]) + if log[|log| - 1].Marked? then 1 else 0
  }

  lemma MarksOfLast(log: seq<Act>, act: Act)
    ensures Marks(log + [act]) == Marks(log) + if act.Marked? then 1 else 0
  {
    assert (log + [act])[..|log|] == log;
  }

  /** The number of positions in the log at which a row was marked. */
  lemma {:induction false} MarksMean(log: seq<Act>)
    ensures Marks(log) == |set i | 0 <= i < |log| && log[i].Marked?|
  {
    if log != [] {
      var before := log[..|log| - 1];
      MarksMean(before);
      var earlier := set i | 0 <= i < |before| && before[i].Marked?;
      var all := set i | 0 <= i < |log| && log[i].Marked?;
      assert all == earlier + if log[|log| - 1].Marked? then {|log| - 1} else {};
    }
  }

  /** What one row adds to the log. */
  function RowActs(env: Environment, row: nat, n: nat): seq<Act> {
    if !env.taskFound(row) || EnqueueVerdict(env.enqueue(row), n) != Published then []
    else if MarkVerdict(env.mark(row), n) != Published then [Enqueued(row)]
    else [Enqueued(row), Marked(row)]
  }

  function RowVerdict(env: Environment, row: nat, n: nat): Verdict {
    if !env.taskFound(row) then Permanent
    else if EnqueueVerdict(env.enqueue(row), n) != Published then EnqueueVerdict(env.enqueue(row), n)
    else MarkVerdict(env.mark(row), n)
  }

  class Publisher {
    var log: seq<Act>
    var slept: real

    ghost predicate Valid()
      reads this
    {
      Ordered(log)
    }

    constructor ()
      ensures Valid() && log == [] && slept == 0.0
    {
      log, slept := [], 0.0;
    }

    method SleepBackoff(seconds: real)
      modifies this`slept
      ensures slept == old(slept) + if seconds > 0.0 then seconds else 0.0
    {
      if seconds > 0.0 {
        slept := slept + seconds;
      }
    }

    method EnqueueWithRetry(row: nat, reply: nat -> Reply, initial: real, max: real, maxAttempts: int)
      returns (verdict: Verdict)
      modifies this
      ensures verdict == EnqueueVerdict(reply, Attempts(maxAttempts))
      ensures log == old(log) + if verdict.Published? then [Enqueued(row)] else []
      ensures slept == old(slept) + TotalSleep(initial, max, Naps(reply, Attempts(maxAttempts)))
    {
      var schedule := OutboxRetrySchedule(initial, max, maxAttempts);
      var k := 0;
      while k < |schedule|
        invariant k <= |schedule|
        invariant forall i :: 0 <= i < k ==> reply(i).Unavailable?
        invariant log == old(log)
        invariant slept == old(slept) + TotalSleep(initial, max, if k == |schedule| && k > 0 then k - 1 else k)
      {
        if !reply(k).Unavailable? {
          SettledWhere(reply, |schedule|, k);
          if reply(k).Accepted? {
            log := log + [Enqueued(row)];
            return Published;
          }
          return if reply(k).InvalidMessage? then Permanent else Fatal;
        }
        if k < |schedule| - 1 {
          SleepBackoff(schedule[k]);
        }
        k := k + 1;
      }
      SettledWhere(reply, |schedule|, k);
      return Transient;
    }

    method MarkPublishedWithRetry(row: nat, reply: nat -> Reply, initial: real, max: real, maxAttempts: int)
      returns (verdict: Verdict)
      modifies this
      ensures verdict == MarkVerdict(reply, Attempts(maxAttempts))
      ensures log == old(log) + if verdict.Published? then [Marked(row)] else []
      ensures slept == old(slept) + TotalSleep(initial, max, Naps(reply, Attempts(maxAttempts)))
    {
      var schedule := OutboxRetrySchedule(initial, max, maxAttempts);
      var k := 0;
      while k < |schedule|
        invariant k <= |schedule|
        invariant forall i :: 0 <= i < k ==> reply(i).Unavailable?
        invariant log == old(log)
        invariant slept == old(slept) + TotalSleep(initial, max, if k == |schedule| && k > 0 then k - 1 else k)
      {
        if !reply(k).Unavailable? {
          SettledWhere(reply, |schedule|, k);
          if reply(k).Accepted? {
            log := log + [Marked(row)];
            return Published;
          }
          return Fatal;
        }
        if k < |schedule| - 1 {
          SleepBackoff(schedule[k]);
        }
        k := k + 1;
      }
      SettledWhere(reply, |schedule|, k);
      return Transient;
    }

    /** Build the message, enqueue it, mark the row. */
    method PublishRow(env: Environment, row: nat) returns (verdict: Verdict)
      requires Valid()
      modifies this
      ensures Valid()
      ensures verdict == RowVerdict(env, row, MAX_ATTEMPTS)
      ensures log == old(log) + RowActs(env, row, MAX_ATTEMPTS)
      ensures old(slept) <= slept <= old(slept) + 2.0 * (MAX_ATTEMPTS - 1) as real * MAX_SECONDS
    {
      if !env.taskFound(row) {
        return Permanent;
      }
      RowKeepsOrder(log, env, row);
      NapsAreCapped(env.enqueue(row));
      NapsAreCapped(env.mark(row));
      verdict := EnqueueWithRetry(row, env.enqueue(row), INITIAL_SECONDS, MAX_SECONDS, MAX_ATTEMPTS);
      if verdict.Published? {
        verdict := MarkPublishedWithRetry(row, env.mark(row), INITIAL_SECONDS, MAX_SECONDS, MAX_ATTEMPTS);
      }
      assert log == old(log) + RowActs(env, row, MAX_ATTEMPTS);
    }

    /** One batch. `None` means that an error nobody catches ended it early. When it
        returns, the counts add up and the published count is the number of rows
        marked; however it ends, no row was marked before it was enqueued. */
    method PublishBatch(env: Environment, rows: seq<nat>) returns (result: Option<BatchResult>)
      requires Valid()
      modifies this
      ensures Valid() && old(log) <= log
      ensures result.Some? <==> forall i :: 0 <= i < |rows| ==> !RowVerdict(env, rows[i], MAX_ATTEMPTS).Fatal?
      ensures result.Some? ==>
        var b := result.value;
        && b.fetched == |rows| && b.fetched == b.published + b.failed + b.skipped && b.skipped == 0
        && Marks(log) == Marks(old(log)) + b.published
        && forall i :: 0 <= i < |rows| && RowVerdict(env, rows[i], MAX_ATTEMPTS).Published? ==> Marked(rows[i]) in log
      ensures slept <= old(slept) + |rows| as real * 2.0 * (MAX_ATTEMPTS - 1) as real * MAX_SECONDS
    {
      var published, failed := 0, 0;
      for n := 0 to |rows|
        invariant Valid() && old(log) <= log
        invariant published + failed == n
        invariant Marks(log) == Marks(old(log)) + published
        invariant forall i :: 0 <= i < n ==> !RowVerdict(env, rows[i], MAX_ATTEMPTS).Fatal?
        invariant forall i :: 0 <= i < n && RowVerdict(env, rows[i], MAX_ATTEMPTS).Published? ==> Marked(rows[i]) in log
        invariant slept <= old(slept) + n as real * 2.0 * (MAX_ATTEMPTS - 1) as real * MAX_SECONDS
      {
        RowMarksOnce(log, env, rows[n]);
        var verdict := PublishRow(env, rows[n]);
        match verdict
        case Published => published := published + 1;
        case Permanent => failed := failed + 1;
        case Transient => failed := failed + 1;
        case Fatal => return None;
      }
      return Some(BatchResult(|rows|, published, failed, 0));
    }
  }

  lemma NapsAreCapped(reply: nat -> Reply)
    ensures
      var slept := TotalSleep(INITIAL_SECONDS, MAX_SECONDS, Naps(reply, MAX_ATTEMPTS));
      0.0 <= slept <= (MAX_ATTEMPTS - 1) as real * MAX_SECONDS
  {
    SleepIsCapped(INITIAL_SECONDS, MAX_SECONDS, Naps(reply, MAX_ATTEMPTS));
  }

  /** Each retry loop sleeps at most one delay fewer than it has attempts. */
  lemma {:induction false} RetryLoopSleepIsCapped(initial: real, max: real, reply: nat -> Reply, n: nat)
    requires max >= 0.0 && n > 0
    ensures TotalSleep(initial, max, Naps(reply, n)) <= Budget(n - 1, max)
  {
    SleepGrows(initial, max, Naps(reply, n), n - 1);
    SleepIsCapped(initial, max, n - 1);
  }

  lemma RowKeepsOrder(log: seq<Act>, env: Environment, row: nat)
    requires Ordered(log)
    ensures Ordered(log + RowActs(env, row, MAX_ATTEMPTS))
  {
    var after := log + RowActs(env, row, MAX_ATTEMPTS);
    forall i | 0 <= i < |after| && after[i].Marked?
      ensures exists j :: 0 <= j < i && after[j] == Enqueued(after[i].row)
    {
      if i < |log| {
        var j :| 0 <= j < i && log[j] == Enqueued(log[i].row);
        assert after[j] == log[j];
      } else {
        assert after[|log|] == Enqueued(row) && i == |log| + 1;
      }
    }
  }

  lemma RowMarksOnce(log: seq<Act>, env: Environment, row: nat)
    ensures
      var acts := RowActs(env, row, MAX_ATTEMPTS);
      && Marks(log + acts) == Marks(log) + (if RowVerdict(env, row, MAX_ATTEMPTS).Published? then 1 else 0)
      && (RowVerdict(env, row, MAX_ATTEMPTS).Published? ==> Marked(row) in log + acts)
  {
    var acts := RowActs(env, row, MAX_ATTEMPTS);
    if acts == [Enqueued(row)] {
      MarksOfLast(log, Enqueued(row));
    } else if acts == [Enqueued(row), Marked(row)] {
      MarksOfLast(log, Enqueued(row));
      MarksOfLast(log + [Enqueued(row)], Marked(row));
      assert log + acts == log + [Enqueued(row)] + [Marked(row)];
    } else {
      assert log + acts == log;
    }
  }

  // --- What the verdicts mean, in the replies alone ---

  /** The first k calls are answered by an unavailability, and call k is not. */
  ghost predicate AnsweredAt(reply: nat -> Reply, n: nat, k: nat) {
    k < n && !reply(k).Unavailable? && forall i :: 0 <= i < k ==> reply(i).Unavailable?
  }

  /** Enqueueing fails for now exactly when every call is unavailable; otherwise the
      first other answer decides, and only an accepted message counts as published. */
  lemma EnqueueVerdictMeans(reply: nat -> Reply, n: nat)
    ensures EnqueueVerdict(reply, n).Transient? <==> forall i :: 0 <= i < n ==> reply(i).Unavailable?
    ensures forall k: nat :: AnsweredAt(reply, n, k) ==>
      && (EnqueueVerdict(reply, n).Published? <==> reply(k).Accepted?)
      && (EnqueueVerdict(reply, n).Permanent? <==> reply(k).InvalidMessage?)
      && (EnqueueVerdict(reply, n).Fatal? <==> reply(k).Broken?)
  {
    forall k: nat | AnsweredAt(reply, n, k) ensures Settled(reply, n) == k {
      SettledWhere(reply, n, k);
    }
  }

  /** Marking knows no invalid message: any answer but acceptance escapes. */
  lemma MarkVerdictMeans(reply: nat -> Reply, n: nat)
    ensures MarkVerdict(reply, n).Transient? <==> forall i :: 0 <= i < n ==> reply(i).Unavailable?
    ensures !MarkVerdict(reply, n).Permanent?
    ensures forall k: nat :: AnsweredAt(reply, n, k) ==>
      && (MarkVerdict(reply, n).Published? <==> reply(k).Accepted?)
      && (MarkVerdict(reply, n).Fatal? <==> reply(k).InvalidMessage? || reply(k).Broken?)
  {
    forall k: nat | AnsweredAt(reply, n, k) ensures Settled(reply, n) == k {
      SettledWhere(reply, n, k);
    }
  }

  /** A loop sleeps once after every unavailable call that is followed by another one:
      as often as there were such calls before the answer, and once less than there
      are attempts when no answer comes. */
  lemma NapsMean(reply: nat -> Reply, n: nat)
    ensures (forall i :: 0 <= i < n ==> reply(i).Unavailable?) && n > 0 ==> Naps(reply, n) == n - 1
    ensures forall k: nat :: AnsweredAt(reply, n, k) ==> Naps(reply, n) == k
  {
    forall k: nat | AnsweredAt(reply, n, k) ensures Settled(reply, n) == k {
      SettledWhere(reply, n, k);
    }
  }

  /** A queue that stays unavailable is called five times, with sleeps of one, two, four
      and eight seconds between. */
  lemma GivingUpTakesFifteenSeconds(reply: nat -> Reply)
    requires forall i :: 0 <= i < MAX_ATTEMPTS ==> reply(i).Unavailable?
    ensures EnqueueVerdict(reply, 5).Transient? && MAX_ATTEMPTS == 5
    ensures TotalSleep(INITIAL_SECONDS, MAX_SECONDS, Naps(reply, MAX_ATTEMPTS)) == 15.0
    ensures Delay(INITIAL_SECONDS, MAX_SECONDS, 5) == 30.0
  {
    NapsMean(reply, 5);
    assert Power2(2) == 4 && Power2(3) == 8 && Power2(5) == 32;
    assert TotalSleep(1.0, 30.0, 2) == 3.0;
    assert TotalSleep(1.0, 30.0, 4) == 15.0;
  }

  /** What becomes of a row: one without a task fails for good and is never enqueued; one
      that is not enqueued is not marked and has the verdict of enqueueing; one that is
      has the verdict of marking. */
  lemma RowsMean(env: Environment, row: nat, n: nat)
    ensures !env.taskFound(row) ==> RowVerdict(env, row, n).Permanent? && RowActs(env, row, n) == []
    ensures env.taskFound(row) && !EnqueueVerdict(env.enqueue(row), n).Published? ==>
      RowVerdict(env, row, n) == EnqueueVerdict(env.enqueue(row), n) && RowActs(env, row, n) == []
    ensures env.taskFound(row) && EnqueueVerdict(env.enqueue(row), n).Published? ==>
      && RowVerdict(env, row, n) == MarkVerdict(env.mark(row), n)
      && RowActs(env, row, n) ==
         [Enqueued(row)] + if MarkVerdict(env.mark(row), n).Published? then [Marked(row)] else []
  {
  }
}
