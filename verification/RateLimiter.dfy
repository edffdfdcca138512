/** The client-side token bucket. Times are seconds and tokens are reals. */
module RateLimiter {
  import opened WorkflowTypes

  datatype Bucket = Bucket(disabled: bool, capacity: real, rate: real, tokens: real, last: real)

  datatype Taken = Taken(granted: bool, bucket: Bucket)

  function NewBucket(limit: Option<int>, now: real): Bucket {
    if limit.None? || limit.value <= 0 then Bucket(true, 0.0, 0.0, 0.0, now)
    else
      var capacity := limit.value as real;
      Bucket(false, capacity, capacity / 60.0, capacity, now)
  }

  function Max(a: real, b: real): real {
    if a >= b then a else b
  }

  function Min(a: real, b: real): real {
    if a <= b then a else b
  }

  function Refilled(b: Bucket, now: real): Bucket {
    b.(tokens := Min(b.capacity, b.tokens + Max(0.0, now - b.last) * b.rate), last := now)
  }

  function Take(b: Bucket, now: real): Taken {
    if b.disabled then Taken(true, b)
    else
      var full := Refilled(b, now);
      if full.tokens >= 1.0 then Taken(true, full.(tokens := full.tokens - 1.0)) else Taken(false, full)
  }

  predicate ValidBucket(b: Bucket) {
    !b.disabled ==> b.capacity >= 1.0 && b.rate == b.capacity / 60.0 && 0.0 <= b.tokens <= b.capacity
  }

  class ClientRateLimiter {
    const disabled: bool
    const capacity: real
    const rate: real
    var tokens: real
    var last: real

    function View(): Bucket
      reads this
    {
      Bucket(disabled, capacity, rate, tokens, last)
    }

    constructor (limit: Option<int>, now: real)
      ensures View() == NewBucket(limit, now)
      ensures ValidBucket(View())
    {
      if limit.None? || limit.value <= 0 {
        disabled := true;
        capacity := 0.0;
        rate := 0.0;
        tokens := 0.0;
      } else {
        disabled := false;
        capacity := limit.value as real;
        rate := limit.value as real / 60.0;
        tokens := limit.value as real;
      }
      last := now;
    }

    /** `now` is what the clock reads inside the lock; a refusal is the
        original's ProviderRateLimitError. */
    method Acquire(now: real) returns (granted: bool)
      requires ValidBucket(View())
      modifies this
      ensures Taken(granted, View()) == Take(old(View()), now)
      ensures ValidBucket(View())
      ensures disabled ==> granted && tokens == old(tokens) && last == old(last)
      ensures !disabled ==> last == now
      ensures !disabled && old(tokens) >= 1.0 ==> granted && tokens >= old(tokens) - 1.0
    {
      TakeKeepsValid(View(), now);
      if disabled {
        return true;
      }
      var elapsed := Max(0.0, now - last);
      tokens := Min(capacity, tokens + elapsed * rate);
      last := now;
      if tokens >= 1.0 {
        tokens := tokens - 1.0;
        return true;
      }
      return false;
    }
  }

  lemma Product(a: real, b: real)
    requires a >= 0.0 && b >= 0.0
    ensures a * b >= 0.0
  {
  }

  /** Tokens stay between zero and the capacity, whatever the clock does. */
  lemma TakeKeepsValid(b: Bucket, now: real)
    requires ValidBucket(b)
    ensures ValidBucket(Take(b, now).bucket)
  {
    if !b.disabled {
      Product(Max(0.0, now - b.last), b.rate);
    }
  }

  /** What one call does, exactly: time adds its share up to the capacity, and a call
      is granted, for one token, exactly when there is a whole one. */
  lemma TakeIsExact(b: Bucket, now: real)
    requires ValidBucket(b) && !b.disabled
    ensures
      var r := Take(b, now);
      var earned := if now > b.last then (now - b.last) * b.rate else 0.0;
      var available := if b.tokens + earned > b.capacity then b.capacity else b.tokens + earned;
      && (r.granted <==> available >= 1.0)
      && r.bucket.tokens == (if r.granted then available - 1.0 else available)
      && r.bucket.last == now && r.bucket.capacity == b.capacity && r.bucket.rate == b.rate && !r.bucket.disabled
  {
    if now <= b.last {
      assert 0.0 * b.rate == 0.0;
    }
  }

  /** Stored tokens are kept: a bucket with a whole token grants, and is left with at
      least the others, whatever the clock reads. */
  lemma StoredTokensAreKept(b: Bucket, now: real)
    requires ValidBucket(b) && !b.disabled && b.tokens >= 1.0
    ensures Take(b, now).granted && Take(b, now).bucket.tokens >= b.tokens - 1.0
  {
    Product(Max(0.0, now - b.last), b.rate);
  }

  /** A limiter is disabled exactly without a positive limit; otherwise it starts with
      as many tokens as it allows calls a minute, and earns them back in a minute. */
  lemma NewLimiterMeans(limit: Option<int>, now: real)
    ensures
      var b := NewBucket(limit, now);
      && (b.disabled <==> limit.None? || limit.value <= 0)
      && b.last == now
      && (!b.disabled ==>
            && b.tokens == limit.value as real && b.capacity == limit.value as real
            && 60.0 * b.rate == limit.value as real)
  {
  }

  // --- Runs of calls ---

  predicate NonDecreasing(times: seq<real>) {
    forall i, j :: 0 <= i <= j < |times| ==> times[i] <= times[j]
  }

  /** Call k happens at times[k], in bucket buckets[k], and leaves buckets[k + 1]. */
  ghost predicate Calls(times: seq<real>, buckets: seq<Bucket>, granted: seq<bool>) {
    && |buckets| == |times| + 1 && |granted| == |times|
    && forall k :: 0 <= k < |times| ==> Taken(granted[k], buckets[k + 1]) == Take(buckets[k], times[k])
  }

  /** Number of grants among calls i to j - 1. */
  function Grants(granted: seq<bool>, i: nat, j: nat): nat
    requires i <= j <= |granted|
  {
    if i == j then 0 else Grants(granted, i, j - 1) + if granted[j - 1] then 1 else 0
  }

  function Sum(earned: seq<real>, i: nat, j: nat): real
    requires i <= j <= |earned|
  {
    if i == j then 0.0 else Sum(earned, i, j - 1) + earned[j - 1]
  }

  /** Tokens stay between zero and the capacity in every run. */
  lemma {:induction false} RunsStayValid(times: seq<real>, buckets: seq<Bucket>, granted: seq<bool>, k: nat)
    requires Calls(times, buckets, granted) && k < |buckets| && ValidBucket(buckets[0])
    ensures ValidBucket(buckets[k])
    ensures buckets[k].(tokens := 0.0, last := 0.0) == buckets[0].(tokens := 0.0, last := 0.0)
  {
    if k > 0 {
      RunsStayValid(times, buckets, granted, k - 1);
      TakeKeepsValid(buckets[k - 1], times[k - 1]);
      assert Taken(granted[k - 1], buckets[k - 1 + 1]) == Take(buckets[k - 1], times[k - 1]);
    }
  }

  /** A grant costs a token, and time earns no more than its share; a clock that
      goes back earns nothing. */
  lemma TakeSpends(b: Bucket, now: real)
    requires ValidBucket(b) && !b.disabled
    ensures
      var r := Take(b, now);
      && r.bucket.last == now
      && (if r.granted then 1.0 else 0.0) + r.bucket.tokens <= b.capacity
      && (if r.granted then 1.0 else 0.0) + r.bucket.tokens <= b.tokens + Max(0.0, now - b.last) * b.rate
  {
    TakeKeepsValid(b, now);
  }

  /** One entry for each call: what it could earn. */
  ghost predicate Spends(tokens: seq<real>, granted: seq<bool>, earned: seq<real>, i: nat, j: nat) {
    && i <= j < |tokens| && j <= |granted| && j <= |earned|
    && forall k :: i <= k < j ==> (if granted[k] then 1.0 else 0.0) + tokens[k + 1] <= tokens[k] + earned[k]
  }

  /** What was granted and what is left never exceed what was there and what time
      brought. */
  lemma {:induction false} TokensAreConserved(tokens: seq<real>, granted: seq<bool>, earned: seq<real>, i: nat, j: nat)
    requires Spends(tokens, granted, earned, i, j)
    ensures Grants(granted, i, j) as real + tokens[j] <= tokens[i] + Sum(earned, i, j)
  {
    if i < j {
      TokensAreConserved(tokens, granted, earned, i, j - 1);
      assert (if granted[j - 1] then 1.0 else 0.0) + tokens[j - 1 + 1] <= tokens[j - 1] + earned[j - 1];
    }
  }

  /** What the clock moved forward with each call. */
  ghost predicate StepsOf(times: seq<real>, steps: seq<real>) {
    |steps| == |times| && forall k :: 1 <= k < |times| ==> steps[k] == Max(0.0, times[k] - times[k - 1])
  }

  /** What each call could earn by it. */
  ghost predicate Earns(steps: seq<real>, rate: real, earned: seq<real>) {
    |earned| == |steps| && forall k :: 0 <= k < |steps| ==> earned[k] == steps[k] * rate
  }

  lemma {:induction false} StepsOfMonotone(times: seq<real>, steps: seq<real>, i: nat, j: nat)
    requires NonDecreasing(times) && StepsOf(times, steps) && i < j <= |times|
    ensures Sum(steps, i + 1, j) == times[j - 1] - times[i]
  {
    if i + 1 < j {
      StepsOfMonotone(times, steps, i, j - 1);
      assert times[j - 2] <= times[j - 1];
    }
  }

  lemma {:induction false} EarningsAddUp(steps: seq<real>, rate: real, earned: seq<real>, i: nat, j: nat)
    requires i <= j <= |steps| && Earns(steps, rate, earned)
    ensures Sum(earned, i, j) == Sum(steps, i, j) * rate
  {
    if i < j {
      EarningsAddUp(steps, rate, earned, i, j - 1);
      AddEarning(Sum(earned, i, j - 1), earned[j - 1], Sum(steps, i, j - 1), steps[j - 1], Sum(steps, i, j), rate);
    }
  }

  lemma AddEarning(sum: real, earned: real, forward: real, step: real, total: real, rate: real)
    requires sum == forward * rate && earned == step * rate && total == forward + step
    ensures sum + earned == total * rate
  {
  }

  lemma {:induction false} RunEarns(times: seq<real>, buckets: seq<Bucket>, granted: seq<bool>, k: nat)
    requires Calls(times, buckets, granted) && ValidBucket(buckets[0]) && !buckets[0].disabled
    requires 1 <= k < |times|
    ensures (if granted[k] then 1.0 else 0.0) + buckets[k + 1].tokens
         <= buckets[k].tokens + Max(0.0, times[k] - times[k - 1]) * buckets[0].rate
  {
    RunsStayValid(times, buckets, granted, k - 1);
    RunsStayValid(times, buckets, granted, k);
    TakeSpends(buckets[k - 1], times[k - 1]);
    assert Taken(granted[k - 1], buckets[k - 1 + 1]) == Take(buckets[k - 1], times[k - 1]);
    TakeSpends(buckets[k], times[k]);
  }

  lemma {:induction false} RunSpends(
    times: seq<real>, buckets: seq<Bucket>, granted: seq<bool>, steps: seq<real>, earned: seq<real>)
    returns (tokens: seq<real>)
    requires Calls(times, buckets, granted) && ValidBucket(buckets[0]) && !buckets[0].disabled
    requires StepsOf(times, steps) && Earns(steps, buckets[0].rate, earned)
    ensures |times| > 0 ==> Spends(tokens, granted, earned, 1, |times|)
    ensures |tokens| == |buckets| && forall k :: 0 <= k < |tokens| ==> tokens[k] == buckets[k].tokens
  {
    tokens := seq(|buckets|, k requires 0 <= k < |buckets| => buckets[k].tokens);
    forall k | 1 <= k < |times| ensures (if granted[k] then 1.0 else 0.0) + tokens[k + 1] <= tokens[k] + earned[k] {
      RunEarns(times, buckets, granted, k);
    }
  }

  lemma {:induction false} WindowIsEarned(
    times: seq<real>, buckets: seq<Bucket>, granted: seq<bool>, steps: seq<real>, earned: seq<real>, i: nat, j: nat)
    requires Calls(times, buckets, granted) && ValidBucket(buckets[0]) && !buckets[0].disabled
    requires StepsOf(times, steps) && Earns(steps, buckets[0].rate, earned) && i < j <= |times|
    ensures Grants(granted, i, j) as real <= buckets[0].capacity + Sum(earned, i + 1, j)
  {
    var tokens := RunSpends(times, buckets, granted, steps, earned);
    FirstOfWindow(times, buckets, granted, i);
    RunsStayValid(times, buckets, granted, j);
    WindowOf(tokens, granted, earned, i, j, buckets[0].capacity);
  }

  /** The rate bound for every clock: the grants among any consecutive calls are at
      most the capacity plus what the clock's forward steps between them earn. A step
      back costs nothing, and the way forward again is earned a second time. */
  lemma {:induction false} AnyClockBound(
    times: seq<real>, buckets: seq<Bucket>, granted: seq<bool>, steps: seq<real>, i: nat, j: nat)
    requires Calls(times, buckets, granted) && ValidBucket(buckets[0]) && !buckets[0].disabled
    requires StepsOf(times, steps) && i < j <= |times|
    ensures Grants(granted, i, j) as real <= buckets[0].capacity + Sum(steps, i + 1, j) * buckets[0].rate
  {
    var rate := buckets[0].rate;
    var earned := seq(|steps|, k requires 0 <= k < |steps| => steps[k] * rate);
    assert Earns(steps, rate, earned);
    WindowIsEarned(times, buckets, granted, steps, earned, i, j);
    EarningsAddUp(steps, rate, earned, i + 1, j);
    Conclude(Grants(granted, i, j) as real, buckets[0].capacity, Sum(earned, i + 1, j), Sum(steps, i + 1, j), rate,
             Sum(steps, i + 1, j));
  }

  lemma Conclude(grants: real, capacity: real, earned: real, forward: real, rate: real, same: real)
    requires grants <= capacity + earned && earned == forward * rate && same == forward
    ensures grants <= capacity + same * rate
  {
  }

  /** The rate bound: with a clock that never goes back, the grants among any
      consecutive calls are at most the capacity plus what the time between the
      first and the last of them earns. */
  lemma {:induction false} WindowBound(times: seq<real>, buckets: seq<Bucket>, granted: seq<bool>, i: nat, j: nat)
    requires Calls(times, buckets, granted) && ValidBucket(buckets[0]) && !buckets[0].disabled && NonDecreasing(times)
    requires i < j <= |times|
    ensures Grants(granted, i, j) as real <= buckets[0].capacity + (times[j - 1] - times[i]) * buckets[0].rate
  {
    var steps := MonotoneSteps(times, i, j);
    AnyClockBound(times, buckets, granted, steps, i, j);
    Restate(Grants(granted, i, j) as real, buckets[0].capacity, Sum(steps, i + 1, j), times[j - 1] - times[i],
            buckets[0].rate);
  }

  lemma Restate(grants: real, capacity: real, forward: real, same: real, rate: real)
    requires grants <= capacity + forward * rate && same == forward
    ensures grants <= capacity + same * rate
  {
  }

  lemma {:induction false} MonotoneSteps(times: seq<real>, i: nat, j: nat) returns (steps: seq<real>)
    requires NonDecreasing(times) && i < j <= |times|
    ensures StepsOf(times, steps) && Sum(steps, i + 1, j) == times[j - 1] - times[i]
  {
    steps := seq(|times|, k requires 0 <= k < |times| => if k == 0 then 0.0 else Max(0.0, times[k] - times[k - 1]));
    StepsOfMonotone(times, steps, i, j);
  }

  /** The bound in terms of what was earned. */
  lemma {:induction false} WindowOf(
    tokens: seq<real>, granted: seq<bool>, earned: seq<real>, i: nat, j: nat, capacity: real)
    requires i < j && |tokens| == |granted| + 1 && Spends(tokens, granted, earned, 1, |granted|) && j <= |granted|
    requires (if granted[i] then 1.0 else 0.0) + tokens[i + 1] <= capacity && tokens[j] >= 0.0
    ensures Grants(granted, i, j) as real <= capacity + Sum(earned, i + 1, j)
  {
    TokensAreConserved(tokens, granted, earned, i + 1, j);
    GrantsFrom(granted, i, j);
  }

  lemma FirstOfWindow(times: seq<real>, buckets: seq<Bucket>, granted: seq<bool>, i: nat)
    requires Calls(times, buckets, granted) && ValidBucket(buckets[0]) && !buckets[0].disabled && i < |times|
    ensures (if granted[i] then 1.0 else 0.0) + buckets[i + 1].tokens <= buckets[0].capacity
  {
    RunsStayValid(times, buckets, granted, i);
    TakeSpends(buckets[i], times[i]);
  }

  lemma {:induction false} GrantsFrom(granted: seq<bool>, i: nat, j: nat)
    requires i < j <= |granted|
    ensures Grants(granted, i, j) == (if granted[i] then 1 else 0) + Grants(granted, i + 1, j)
  {
    if i + 1 < j {
      GrantsFrom(granted, i, j - 1);
    }
  }

  /** A call that comes a sixtieth of the capacity's minute after a refusal, with
      no call between, is granted. */
  lemma GrantAfterDenial(b: Bucket, refused: real, now: real)
    requires ValidBucket(b) && !Take(b, refused).granted
    requires now - refused >= 60.0 / b.capacity
    ensures Take(Take(b, refused).bucket, now).granted
  {
    TakeKeepsValid(b, refused);
    EnoughTime(b.capacity, b.rate, now - refused);
    RefillsToOne(Take(b, refused).bucket, now);
  }

  lemma EnoughTime(capacity: real, rate: real, elapsed: real)
    requires capacity >= 1.0 && rate == capacity / 60.0 && elapsed >= 60.0 / capacity
    ensures elapsed * rate >= 1.0
  {
    assert 60.0 / capacity * rate == 1.0;
    Product(elapsed - 60.0 / capacity, rate);
  }

  lemma RefillsToOne(b: Bucket, now: real)
    requires ValidBucket(b) && (now - b.last) * b.rate >= 1.0 && now >= b.last
    ensures Take(b, now).granted
  {
  }

  /** A disabled limiter grants everything. */
  lemma DisabledGrantsAll(times: seq<real>, buckets: seq<Bucket>, granted: seq<bool>, k: nat)
    requires Calls(times, buckets, granted) && buckets[0].disabled && k < |times|
    ensures granted[k] && buckets[k + 1] == buckets[0]
  {
    if k > 0 {
      DisabledGrantsAll(times, buckets, granted, k - 1);
      assert buckets[k - 1 + 1] == buckets[0];
    }
    assert Taken(granted[k], buckets[k + 1]) == Take(buckets[k], times[k]);
  }

  lemma TakeGrants(b: Bucket, now: real)
    requires !b.disabled && Refilled(b, now).tokens >= 1.0
    ensures Take(b, now) == Taken(true, b.(tokens := Refilled(b, now).tokens - 1.0, last := now))
  {
  }

  /** One call a minute at one call a minute. */
  function Spent(last: real): Bucket {
    Bucket(false, 1.0, 1.0 / 60.0, 0.0, last)
  }

  lemma MinuteEarnsOne()
    ensures Take(Spent(0.0), 60.0) == Taken(true, Spent(60.0))
  {
    assert 60.0 * (1.0 / 60.0) == 1.0;
    assert Refilled(Spent(0.0), 60.0).tokens == 1.0;
    TakeGrants(Spent(0.0), 60.0);
  }

  lemma BackEarnsNothing()
    ensures Take(Spent(60.0), 0.0) == Taken(false, Spent(0.0))
  {
    assert 0.0 * (1.0 / 60.0) == 0.0;
    assert Refilled(Spent(60.0), 0.0) == Spent(0.0);
  }

  lemma FirstIsGranted()
    ensures Take(NewBucket(Some(1), 0.0), 0.0) == Taken(true, Spent(0.0))
  {
    var full := NewBucket(Some(1), 0.0);
    assert 0.0 * (1.0 / 60.0) == 0.0;
    assert Refilled(full, 0.0) == full;
  }

  lemma CallsAppend(times: seq<real>, buckets: seq<Bucket>, granted: seq<bool>, now: real, r: Taken)
    requires Calls(times, buckets, granted) && r == Take(buckets[|times|], now)
    ensures Calls(times + [now], buckets + [r.bucket], granted + [r.granted])
    ensures Grants(granted + [r.granted], 0, |times| + 1) == Grants(granted, 0, |times|) + if r.granted then 1 else 0
  {
    GrantsOfPrefix(granted, granted + [r.granted], |times|);
  }

  lemma {:induction false} GrantsOfPrefix(a: seq<bool>, b: seq<bool>, j: nat)
    requires a <= b && j <= |a|
    ensures Grants(a, 0, j) == Grants(b, 0, j)
  {
    if j > 0 {
      GrantsOfPrefix(a, b, j - 1);
    }
  }

  /** A run of the limiter that makes one call a minute, in bucket `last`, and so far
      granted this many. */
  ghost predicate Reaches(times: seq<real>, buckets: seq<Bucket>, granted: seq<bool>, last: Bucket, grants: nat) {
    && Calls(times, buckets, granted) && buckets[0] == NewBucket(Some(1), 0.0)
    && buckets[|times|] == last && Grants(granted, 0, |times|) == grants
  }

  lemma OneMoreCall(
    times: seq<real>, buckets: seq<Bucket>, granted: seq<bool>, last: Bucket, grants: nat, now: real, r: Taken)
    requires Reaches(times, buckets, granted, last, grants) && r == Take(last, now)
    ensures Reaches(times + [now], buckets + [r.bucket], granted + [r.granted], r.bucket,
                    grants + if r.granted then 1 else 0)
  {
    CallsAppend(times, buckets, granted, now, r);
  }

  ghost predicate WithinAMinute(times: seq<real>) {
    forall k :: 0 <= k < |times| ==> 0.0 <= times[k] <= 60.0
  }

  lemma {:induction false} MinuteAgain(times: seq<real>, buckets: seq<Bucket>, granted: seq<bool>, n: nat)
    returns (times': seq<real>, buckets': seq<Bucket>, granted': seq<bool>)
    requires Reaches(times, buckets, granted, Spent(0.0), n) && WithinAMinute(times)
    ensures Reaches(times', buckets', granted', Spent(0.0), n + 1) && WithinAMinute(times')
  {
    MinuteEarnsOne();
    BackEarnsNothing();
    OneMoreCall(times, buckets, granted, Spent(0.0), n, 60.0, Taken(true, Spent(60.0)));
    times', buckets', granted' := times + [60.0], buckets + [Spent(60.0)], granted + [true];
    OneMoreCall(times', buckets', granted', Spent(60.0), n + 1, 0.0, Taken(false, Spent(0.0)));
    times', buckets', granted' := times' + [0.0], buckets' + [Spent(0.0)], granted' + [false];
  }

  lemma {:induction false} FirstCall() returns (times: seq<real>, buckets: seq<Bucket>, granted: seq<bool>)
    ensures Reaches(times, buckets, granted, Spent(0.0), 1) && WithinAMinute(times)
  {
    FirstIsGranted();
    times, buckets, granted := FirstCallOf(NewBucket(Some(1), 0.0), Spent(0.0));
  }

  lemma {:induction false} FirstCallOf(full: Bucket, next: Bucket)
    returns (times: seq<real>, buckets: seq<Bucket>, granted: seq<bool>)
    requires full == NewBucket(Some(1), 0.0) && Take(full, 0.0) == Taken(true, next)
    ensures Reaches(times, buckets, granted, next, 1) && WithinAMinute(times)
  {
    OneMoreCall([], [full], [], full, 0, 0.0, Taken(true, next));
    times, buckets, granted := [] + [0.0], [full] + [next], [] + [true];
  }

  /** `WindowBound` needs a clock that never goes back: one that jumps back earns the
      same minute again and again, and a limiter of one call a minute grants any
      number of calls within one minute. */
  lemma {:induction false} BackwardClockBreaksTheBound(n: nat)
    returns (times: seq<real>, buckets: seq<Bucket>, granted: seq<bool>)
    requires n > 0
    ensures Calls(times, buckets, granted) && buckets[0] == NewBucket(Some(1), 0.0)
    ensures WithinAMinute(times) && Grants(granted, 0, |times|) == n
  {
    times, buckets, granted := BackwardReaches(n);
  }

  lemma {:induction false} BackwardReaches(n: nat) returns (times: seq<real>, buckets: seq<Bucket>, granted: seq<bool>)
    requires n > 0
    ensures Reaches(times, buckets, granted, Spent(0.0), n) && WithinAMinute(times)
  {
    if n == 1 {
      times, buckets, granted := FirstCall();
    } else {
      times, buckets, granted := BackwardReaches(n - 1);
      times, buckets, granted := MinuteAgain(times, buckets, granted, n - 1);
    }
  }

  lemma {:induction false} TokensLeft(limit: int, times: seq<real>, buckets: seq<Bucket>, granted: seq<bool>, k: nat)
    requires limit > 0 && Calls(times, buckets, granted) && buckets[0].tokens == limit as real
    requires ValidBucket(buckets[0]) && !buckets[0].disabled && k <= |times| && k <= limit
    ensures buckets[k].tokens >= (limit - k) as real
  {
    if k > 0 {
      TokensLeft(limit, times, buckets, granted, k - 1);
      RunsStayValid(times, buckets, granted, k - 1);
      StoredTokensAreKept(buckets[k - 1], times[k - 1]);
      assert Taken(granted[k - 1], buckets[k - 1 + 1]) == Take(buckets[k - 1], times[k - 1]);
    }
  }

  /** A new limiter of n calls a minute grants its first n calls, on any clock. */
  lemma {:induction false} FirstCallsAreGranted(
    limit: int, start: real, times: seq<real>, buckets: seq<Bucket>, granted: seq<bool>, k: nat)
    requires limit > 0 && Calls(times, buckets, granted) && buckets[0] == NewBucket(Some(limit), start)
    requires k < |times| && k < limit
    ensures granted[k]
  {
    NewLimiterMeans(Some(limit), start);
    TokensLeft(limit, times, buckets, granted, k);
    RunsStayValid(times, buckets, granted, k);
    StoredTokensAreKept(buckets[k], times[k]);
    assert Taken(granted[k], buckets[k + 1]) == Take(buckets[k], times[k]);
  }
}
