/**
 The carrier worker's retries: services/carrier-sync-service/internal/worker/worker.go.
 Durations are 64-bit signed nanosecond counts; jitter factors and random draws are reals.
 */
module Worker {
  import opened Numbers
  import opened Outcomes
  import opened LastKnown

  const MAX_INT64: int := 0x7fff_ffff_ffff_ffff
  const DEFAULT_RETRY_BASE_BACKOFF: int := 200_000_000

  predicate IsInt64(n: int) {
    -MAX_INT64 - 1 <= n <= MAX_INT64
  }

  /** 64-bit addition. */
  function Add64(a: int, b: int): int {
    var sum := a + b;
    if sum > MAX_INT64 then sum - 2 * (MAX_INT64 + 1)
    else if sum < -MAX_INT64 - 1 then sum + 2 * (MAX_INT64 + 1)
    else sum
  }

  function Pow2(n: nat): (p: nat)
    ensures p >= 1
  {
    if n == 0 then 1 else 2 * Pow2(n - 1)
  }

  function Clamp(x: real): real {
    if x < 0.0 then 0.0 else if x > 1.0 then 1.0 else x
  }

  /** Conversion of a float to an integer drops the fraction. */
  function Trunc(x: real): int {
    if x >= 0.0 then x.Floor else -((-x).Floor)
  }

  datatype Settings = Settings(maxAttempts: int, base: int, max: int, jitter: real)

  predicate Int64Settings(s: Settings) {
    IsInt64(s.base) && IsInt64(s.max)
  }

  function BaseOf(s: Settings): (b: int)
    ensures b > 0
  {
    if s.base <= 0 then DEFAULT_RETRY_BASE_BACKOFF else s.base
  }

  function MaxOf(s: Settings): (m: int)
    ensures m >= BaseOf(s)
  {
    if s.max < BaseOf(s) then BaseOf(s) else s.max
  }

  /** `base` doubled `n` times. */
  function Doubled(base: int, n: nat): int {
    if n == 0 then base else 2 * Doubled(base, n - 1)
  }

  /** Exponential and capped, but one nanosecond below the cap rounds up to it. */
  function Exponential(s: Settings, attempt: int): int {
    var n := if attempt <= 0 then 1 else attempt;
    var capped := Min(Doubled(BaseOf(s), n - 1), MaxOf(s));
    if n >= 2 && capped == MaxOf(s) - 1 then MaxOf(s) else capped
  }

  /** `time.Duration(float64(n) * factor)`. */
  function Scale(n: int, factor: real): int {
    Trunc(n as real * factor)
  }

  function JitterRange(s: Settings, delay: int): int {
    Scale(delay, Clamp(s.jitter))
  }

  function Delta(s: Settings, delay: int, random: real): int {
    Scale(JitterRange(s, delay), Clamp(random) * 2.0 - 1.0)
  }

  function Jittered(delay: int, range: int, random: real): int {
    if range <= 0 then delay
    else
      var sum := Add64(delay, Scale(range, Clamp(random) * 2.0 - 1.0));
      if sum < 0 then 0 else sum
  }

  /** The delay with jitter; a sum that overflows or is negative becomes zero. */
  function Delay(s: Settings, attempt: int, random: real): int {
    Jittered(Exponential(s, attempt), JitterRange(s, Exponential(s, attempt)), random)
  }

  lemma {:induction false} DoubledGrows(base: int, n: nat, m: nat)
    requires n <= m && base > 0
    ensures 0 < Doubled(base, n) <= Doubled(base, m)
    decreases m
  {
    if n < m {
      DoubledGrows(base, n, m - 1);
    } else if n > 0 {
      DoubledGrows(base, n - 1, m - 1);
    }
  }

  lemma {:induction false} DoubledIsPower(base: int, n: nat)
    ensures Doubled(base, n) == base * Pow2(n)
  {
    if n > 0 {
      DoubledIsPower(base, n - 1);
    }
  }

  /**
   The delay before jitter in closed form, for every attempt and every setting: no base means 200 ms, the cap is at
   least the base, and attempts count from one.
   */
  lemma BackoffFormula(s: Settings, attempt: int)
    ensures
      var base := if s.base <= 0 then 200_000_000 else s.base;
      var cap := if s.max < base then base else s.max;
      var n := if attempt <= 0 then 1 else attempt;
      var capped := if base * Pow2(n - 1) < cap then base * Pow2(n - 1) else cap;
      Exponential(s, attempt) == if n >= 2 && capped == cap - 1 then cap else capped
  {
    DoubledIsPower(BaseOf(s), (if attempt <= 0 then 1 else attempt) - 1);
  }

  /** Once the doubling would reach the cap or one below it, every later attempt waits the cap. */
  lemma CapReached(s: Settings, i: nat, n: nat)
    requires 1 <= i < n && Doubled(BaseOf(s), i - 1) >= MaxOf(s) / 2
    ensures Exponential(s, n) == MaxOf(s)
  {
    DoubledGrows(BaseOf(s), i, n - 1);
  }

  /**
   As long as the delay is below half the cap, doubling it neither overflows nor reaches the cap, so the check after
   the doubling never finds anything to do.
   */
  lemma DoublingStaysBelowCap(s: Settings, i: nat)
    requires Int64Settings(s) && i >= 1 && Doubled(BaseOf(s), i - 1) < MaxOf(s) / 2
    ensures 0 < Doubled(BaseOf(s), i) == Doubled(BaseOf(s), i - 1) * 2
    ensures Doubled(BaseOf(s), i) <= MaxOf(s) - 2 < MAX_INT64
  {
    DoubledGrows(BaseOf(s), 0, i - 1);
  }

  /** The doubling loop of `backoffDelay`. */
  method ExponentialDelay(s: Settings, attempt: int) returns (delay: int)
    requires Int64Settings(s)
    ensures delay == Exponential(s, attempt) && 0 < delay <= MAX_INT64
  {
    var n := attempt;
    if n <= 0 { n := 1; }
    var baseBackoff := s.base;
    if baseBackoff <= 0 { baseBackoff := DEFAULT_RETRY_BASE_BACKOFF; }
    var maxBackoff := s.max;
    if maxBackoff < baseBackoff { maxBackoff := baseBackoff; }
    delay := baseBackoff;
    var i := 1;
    while i < n
      invariant 1 <= i <= n
      invariant 0 < delay <= maxBackoff
      invariant delay == Doubled(baseBackoff, i - 1)
      invariant i >= 2 ==> delay <= maxBackoff - 2
    {
      if delay >= maxBackoff / 2 {
        CapReached(s, i, n);
        delay := maxBackoff;
        break;
      }
      DoublingStaysBelowCap(s, i);
      delay := delay * 2;
      if delay > maxBackoff {
        delay := maxBackoff;
        break;
      }
      i := i + 1;
    }
  }

  method BackoffDelay(s: Settings, attempt: int, random: real) returns (r: int)
    requires Int64Settings(s)
    ensures r == Delay(s, attempt, random) && IsInt64(r)
  {
    var delay := ExponentialDelay(s, attempt);
    ScaleBounded(delay, Clamp(s.jitter));
    r := delay;
    var jitterFactor := Clamp(s.jitter);
    if jitterFactor == 0.0 { return; }
    r := AddJitter(delay, Scale(delay, jitterFactor), random);
  }

  /** The random part of `backoffDelay`. */
  method AddJitter(delay: int, jitterRange: int, random: real) returns (r: int)
    requires 0 <= delay <= MAX_INT64 && jitterRange <= delay
    ensures r == Jittered(delay, jitterRange, random) && 0 <= r <= MAX_INT64
  {
    if jitterRange <= 0 { return delay; }
    ScaleBounded(jitterRange, Clamp(random) * 2.0 - 1.0);
    var delta := Scale(jitterRange, Clamp(random) * 2.0 - 1.0);
    if Add64(delay, delta) < 0 { return 0; }
    r := Add64(delay, delta);
  }

  lemma ProductNonNegative(a: real, b: real)
    requires a >= 0.0 && b >= 0.0
    ensures a * b >= 0.0
  {
  }

  lemma ProductWithin(y: real, f: real, x: real)
    requires y >= 0.0 && -1.0 <= f <= 1.0 && x == y * f
    ensures -y <= x <= y
    ensures f >= 0.0 ==> x >= 0.0
    ensures f == 0.0 ==> x == 0.0
  {
    ProductNonNegative(y, 1.0 - f);
    ProductNonNegative(y, 1.0 + f);
    assert y * (1.0 - f) == y - x && y * (1.0 + f) == y + x;
    if f >= 0.0 { ProductNonNegative(y, f); }
  }

  /** Scaling by a factor in [-1, 1] keeps a number within its own size, and by zero makes it zero. */
  lemma ScaleBounded(n: int, factor: real)
    requires n >= 0 && -1.0 <= factor <= 1.0
    ensures -n <= Scale(n, factor) <= n
    ensures factor >= 0.0 ==> Scale(n, factor) >= 0
    ensures factor == 0.0 ==> Scale(n, factor) == 0
  {
    var y := n as real;
    var x := y * factor;
    ProductWithin(y, factor, x);
    TruncBounded(x, y, n);
  }

  lemma TruncBounded(x: real, y: real, n: int)
    requires y == n as real && -y <= x <= y
    ensures -n <= Trunc(x) <= n
    ensures x >= 0.0 ==> Trunc(x) >= 0
  {
  }

  lemma DeltaBounded(s: Settings, delay: int, random: real)
    requires delay >= 0
    ensures 0 <= JitterRange(s, delay) <= delay
    ensures -JitterRange(s, delay) <= Delta(s, delay, random) <= JitterRange(s, delay)
  {
    ScaleBounded(delay, Clamp(s.jitter));
    ScaleBounded(JitterRange(s, delay), Clamp(random) * 2.0 - 1.0);
  }

  /** The cap, growth and start of the delay before jitter. */
  lemma ExponentialGrows(s: Settings, a: int, b: int)
    requires a <= b
    ensures BaseOf(s) <= Exponential(s, a) <= Exponential(s, b) <= MaxOf(s)
  {
    var n, m := if a <= 0 then 1 else a, if b <= 0 then 1 else b;
    DoubledGrows(BaseOf(s), 0, n - 1);
    DoubledGrows(BaseOf(s), n - 1, m - 1);
  }

  /**
   With jitter the delay stays between zero and twice the plain delay for all settings. It also stays within the
   jitter range around the plain delay, unless their sum overflows and so becomes zero.
   */
  lemma JitterIsBounded(s: Settings, attempt: int, random: real)
    requires Int64Settings(s)
    ensures
      var delay := Exponential(s, attempt);
      var range := JitterRange(s, delay);
      && 0 <= Delay(s, attempt, random) <= 2 * delay
      && (delay - range <= Delay(s, attempt, random) <= delay + range <==>
            delay + Delta(s, delay, random) <= MAX_INT64 || range == 0 || range == delay)
  {
    ExponentialGrows(s, attempt, attempt);
    DeltaBounded(s, Exponential(s, attempt), random);
  }

  /**
   For every draw to stay within the jitter range around the plain delay, the settings must leave room for the range
   below the largest duration, or the range must reach down to zero anyway.
   */
  lemma JitterStaysInRangeIff(s: Settings, attempt: int)
    requires Int64Settings(s)
    ensures
      var delay := Exponential(s, attempt);
      var range := JitterRange(s, delay);
      (forall random: real :: delay - range <= Delay(s, attempt, random) <= delay + range) <==>
        delay + range <= MAX_INT64 || range == delay
  {
    var delay := Exponential(s, attempt);
    var range := JitterRange(s, delay);
    ExponentialGrows(s, attempt, attempt);
    if delay + range <= MAX_INT64 || range == delay {
      forall random: real ensures delay - range <= Delay(s, attempt, random) <= delay + range {
        JitterIsBounded(s, attempt, random);
        DeltaBounded(s, delay, random);
      }
    } else {
      DeltaBounded(s, delay, 1.0);
      JitterIsBounded(s, attempt, 1.0);
      assert Delta(s, delay, 1.0) == range;
    }
  }

  /** With the largest base and half of it as jitter, the highest draw makes the worker wait not at all. */
  lemma JitterOverflows()
    ensures Delay(Settings(3, MAX_INT64, MAX_INT64, 0.5), 1, 1.0) == 0
  {
    var s := Settings(3, MAX_INT64, MAX_INT64, 0.5);
    assert Exponential(s, 1) == MAX_INT64;
    assert JitterRange(s, MAX_INT64) == 0x3fff_ffff_ffff_ffff;
  }

  /** The settings that the constructor fixes: three attempts, from 200 ms to 3 s, a fifth of jitter. */
  const DEFAULTS := Settings(3, DEFAULT_RETRY_BASE_BACKOFF, 3_000_000_000, 0.2)

  /** With them each draw stays within the range, and no wait is shorter than 160 ms or longer than 480 ms. */
  lemma DefaultDelays(attempt: int, random: real)
    requires 1 <= attempt < 3
    ensures 160_000_000 <= Delay(DEFAULTS, attempt, random) <= 480_000_000
  {
    var delay := Exponential(DEFAULTS, attempt);
    assert Doubled(DEFAULT_RETRY_BASE_BACKOFF, 1) == 2 * Doubled(DEFAULT_RETRY_BASE_BACKOFF, 0);
    assert delay == if attempt == 1 then 200_000_000 else 400_000_000;
    assert JitterRange(DEFAULTS, delay) == if attempt == 1 then 40_000_000 else 80_000_000;
    DeltaBounded(DEFAULTS, delay, random);
    JitterIsBounded(DEFAULTS, attempt, random);
  }

  /** Dropping the fraction: the nearest whole number towards zero. */
  lemma TruncIs(x: real)
    ensures x >= 0.0 ==> Trunc(x) as real <= x < Trunc(x) as real + 1.0
    ensures x <= 0.0 ==> Trunc(x) as real - 1.0 < x <= Trunc(x) as real
  {
  }

  lemma ClampIs(x: real)
    ensures 0.0 <= Clamp(x) <= 1.0
    ensures 0.0 <= x <= 1.0 ==> Clamp(x) == x
    ensures x < 0.0 ==> Clamp(x) == 0.0
    ensures x > 1.0 ==> Clamp(x) == 1.0
  {
  }

  lemma JitteredFits(delay: int, range: int, delta: int)
    requires 0 < delay <= MAX_INT64 && 0 <= range <= delay && -range <= delta <= range
    ensures
      var sum := Add64(delay, delta);
      (if sum < 0 then 0 else sum) == if delay + delta > MAX_INT64 then 0 else delay + delta
  {
  }

  /** The range is the clamped factor of the delay, and the draw goes from minus to plus the range. */
  lemma RangeAndDelta(s: Settings, delay: int, random: real)
    ensures JitterRange(s, delay) == Trunc(delay as real * Clamp(s.jitter))
    ensures Delta(s, delay, random) == Trunc(JitterRange(s, delay) as real * (Clamp(random) * 2.0 - 1.0))
  {
  }

  /** The jittered delay in closed form; a sum that does not fit 64 bits ends at zero. */
  lemma DelayFormula(s: Settings, attempt: int, random: real)
    requires Int64Settings(s)
    ensures
      var delay := Exponential(s, attempt);
      var sum := delay + Delta(s, delay, random);
      Delay(s, attempt, random) ==
        if JitterRange(s, delay) <= 0 then delay else if sum > MAX_INT64 then 0 else sum
  {
    var delay := Exponential(s, attempt);
    ExponentialGrows(s, attempt, attempt);
    DeltaBounded(s, delay, random);
    JitteredFits(delay, JitterRange(s, delay), Delta(s, delay, random));
  }

  /** The lowest, the middle and the highest draw. */
  lemma DrawsMoveDelay(s: Settings, delay: int)
    ensures Delta(s, delay, 0.0) == -JitterRange(s, delay)
    ensures Delta(s, delay, 0.5) == 0
    ensures Delta(s, delay, 1.0) == JitterRange(s, delay)
  {
    var y := JitterRange(s, delay) as real;
    assert Clamp(0.0) * 2.0 - 1.0 == -1.0 && Clamp(0.5) * 2.0 - 1.0 == 0.0 && Clamp(1.0) * 2.0 - 1.0 == 1.0;
    assert y * -1.0 == -y && y * 0.0 == 0.0 && y * 1.0 == y;
  }

  // Retrying.

  /** What a call, the context and the sleep will do, attempt by attempt (from 1); any behaviour is allowed. */
  datatype Script = Script(
    outcome: nat -> Option<FetchError>,
    cancelled: nat -> Option<FetchError>,
    sleepError: nat -> Option<FetchError>,
    random: nat -> real)

  function Attempts(s: Settings): (n: nat)
    ensures n >= 1
  {
    if s.maxAttempts <= 0 then 1 else s.maxAttempts
  }

  /** What retrying from `attempt` on comes to: nothing after a success, else the error that ended it. */
  function RetryError(s: Settings, script: Script, attempt: nat): Option<FetchError>
    decreases Attempts(s) - attempt
  {
    if script.cancelled(attempt).Some? then script.cancelled(attempt)
    else if script.outcome(attempt).None? || attempt >= Attempts(s) then script.outcome(attempt)
    else if script.sleepError(attempt).Some? then script.sleepError(attempt)
    else RetryError(s, script, attempt + 1)
  }

  /** The `k`-th call would succeed and is within the configured attempts, and nothing ends the retries before. */
  predicate Succeeding(s: Settings, script: Script, k: nat) {
    && (k == 1 || 1 <= k <= s.maxAttempts)
    && script.outcome(k).None?
    && (forall i :: 1 <= i <= k ==> script.cancelled(i).None?)
    && (forall i :: 1 <= i < k ==> script.sleepError(i).None?)
  }

  /** No attempt is given up: a success within the configured attempts is reached. */
  lemma {:induction false} SuccessIsReached(s: Settings, script: Script, attempt: nat, k: nat)
    requires 1 <= attempt <= k && Succeeding(s, script, k)
    ensures RetryError(s, script, attempt).None?
    decreases k - attempt
  {
    if attempt < k { SuccessIsReached(s, script, attempt + 1, k); }
  }

  /** Retries succeed exactly if some call within the configured attempts does and nothing ends them before. */
  lemma {:induction false} SucceedsIff(s: Settings, script: Script)
    ensures Succeeds(s, script) <==> exists k: nat :: Succeeding(s, script, k)
  {
    if Succeeds(s, script) {
      var k := FirstSuccess(s, script, 1);
    }
    if k: nat :| Succeeding(s, script, k) {
      SuccessIsReached(s, script, 1, k);
    }
  }

  lemma {:induction false} FirstSuccess(s: Settings, script: Script, attempt: nat) returns (k: nat)
    requires 1 <= attempt && (attempt == 1 || attempt <= s.maxAttempts) && RetryError(s, script, attempt).None?
    requires forall i :: 1 <= i < attempt ==> script.cancelled(i).None? && script.sleepError(i).None?
    ensures Succeeding(s, script, k)
    decreases Attempts(s) - attempt
  {
    if script.outcome(attempt).None? {
      k := attempt;
    } else {
      k := FirstSuccess(s, script, attempt + 1);
    }
  }

  predicate Succeeds(s: Settings, script: Script) {
    RetryError(s, script, 1).None?
  }

  /**
   `calls` counts the calls of the operation and `sleeps` lists the requested delays. The result is nil exactly
   when the last call made succeeded; it is the first call to do so, and no call follows.
   */
  method WithRetry(s: Settings, script: Script) returns (error: Option<FetchError>, calls: nat, sleeps: seq<int>)
    requires Int64Settings(s)
    ensures calls <= Attempts(s) && calls <= (if s.maxAttempts < 1 then 1 else s.maxAttempts)
    ensures error == RetryError(s, script, 1)
    ensures error.None? <==> calls > 0 && script.outcome(calls).None?
    ensures forall k :: 1 <= k < calls ==> script.outcome(k).Some?
    ensures calls - 1 <= |sleeps| <= calls
    ensures forall k :: 0 <= k < |sleeps| ==> sleeps[k] == Delay(s, k + 1, script.random(k + 1))
    ensures forall k: nat :: Succeeding(s, script, k) ==> error.None?
    ensures forall k :: 1 <= k < calls ==> script.cancelled(k).None? && script.sleepError(k).None?
    ensures error.Some? ==>
      || (calls == Attempts(s) && |sleeps| == calls - 1 && error == script.outcome(calls))
      || (calls < Attempts(s) && |sleeps| == calls > 0 && error == script.sleepError(calls))
      || (calls < Attempts(s) && |sleeps| == calls && error == script.cancelled(calls + 1))
  {
    SucceedsIff(s, script);
    var maxAttempts := s.maxAttempts;
    if maxAttempts <= 0 { maxAttempts := 1; }
    calls, sleeps := 0, [];
    var lastErr := None;
    var attempt := 1;
    while attempt <= maxAttempts
      invariant 1 <= attempt <= maxAttempts
      invariant RetryError(s, script, 1) == RetryError(s, script, attempt)
      invariant calls == attempt - 1 && |sleeps| == calls
      invariant forall k :: 0 <= k < |sleeps| ==> sleeps[k] == Delay(s, k + 1, script.random(k + 1))
      invariant forall k :: 1 <= k < attempt ==>
        script.outcome(k).Some? && script.cancelled(k).None? && script.sleepError(k).None?
      decreases maxAttempts - attempt
    {
      if script.cancelled(attempt).Some? { return script.cancelled(attempt), calls, sleeps; }
      var err := script.outcome(attempt);
      calls := calls + 1;
      if err.None? { return None, calls, sleeps; }
      lastErr := err;
      if attempt == maxAttempts { break; }
      var delay := BackoffDelay(s, attempt, script.random(attempt));
      sleeps := sleeps + [delay];
      if script.sleepError(attempt).Some? { return script.sleepError(attempt), calls, sleeps; }
      attempt := attempt + 1;
    }
    error := lastErr;
  }

  // One cycle.

  /** What happens during a cycle: the fetch attempts, the slice a successful one gets, the pushes by index. */
  datatype Cycle = Cycle(fetch: Script, response: Slice, push: nat -> Script)

  datatype Report = Report(synced: nat, failed: nat, pushes: nat)

  /** How many of the first `n` updates get through. */
  function Delivered(s: Settings, push: nat -> Script, n: nat): (d: nat)
    ensures d <= n
  {
    if n == 0 then 0 else Delivered(s, push, n - 1) + if Succeeds(s, push(n - 1)) then 1 else 0
  }

  method FetchUpdatesWithRetry(s: Settings, svc: SyncService, batchSize: int, cycle: Cycle)
    returns (updates: Slice, fallbackUsed: bool, error: Option<FetchError>)
    requires Int64Settings(s) && svc.Valid() && (cycle.response != null ==> cycle.response != svc.lastKnown)
    modifies svc
    ensures svc.Valid()
    ensures
      var known := LatestNonEmpty(old(svc.fetches));
      if Succeeds(s, cycle.fetch) then error.None? && !fallbackUsed && Contents(updates) == Contents(cycle.response)
      else if known == [] then error == RetryError(s, cycle.fetch, 1) && !fallbackUsed && updates == null
      else error.None? && fallbackUsed && Contents(updates) == Prefix(known, batchSize)
    ensures LatestNonEmpty(svc.fetches) ==
      if Succeeds(s, cycle.fetch) && Contents(cycle.response) != [] then Contents(cycle.response)
      else LatestNonEmpty(old(svc.fetches))
  {
    var calls, sleeps;
    error, calls, sleeps := WithRetry(s, cycle.fetch);
    updates := null;
    // The effects of the retried operation, call by call.
    for k := 1 to calls + 1
      invariant svc.Valid() && (cycle.response != null ==> cycle.response != svc.lastKnown)
      invariant k <= calls || error.Some? ==> LatestNonEmpty(svc.fetches) == LatestNonEmpty(old(svc.fetches))
      invariant k > calls && error.None? ==>
        Contents(updates) == Contents(cycle.response) &&
        LatestNonEmpty(svc.fetches) ==
          if Contents(cycle.response) != [] then Contents(cycle.response) else LatestNonEmpty(old(svc.fetches))
    {
      var fetched, failed := svc.SyncOnce(batchSize, cycle.response, cycle.fetch.outcome(k));
      updates := fetched;
    }
    if error.None? { return updates, false, None; }
    var lastKnown := svc.LastKnownStatuses(batchSize);
    if lastKnown == null || lastKnown.Length == 0 { return null, false, error; }
    return lastKnown, true, None;
  }

  /** `n` updates, each tried at most so often. */
  function MaxPushes(s: Settings, n: nat): nat {
    if n == 0 then 0 else MaxPushes(s, n - 1) + Attempts(s)
  }

  lemma {:induction false} MaxPushesIsProduct(s: Settings, n: nat)
    ensures MaxPushes(s, n) == n * if s.maxAttempts < 1 then 1 else s.maxAttempts
  {
    if n > 0 {
      MaxPushesIsProduct(s, n - 1);
    }
  }

  /** The updates that get through, by index. */
  function Through(s: Settings, push: nat -> Script, n: nat): set<nat> {
    set i | 0 <= i < n && GetsThrough(s, push, i)
  }

  predicate GetsThrough(s: Settings, push: nat -> Script, i: nat) {
    RetryError(s, push(i), 1).None?
  }

  lemma ThroughNext(s: Settings, push: nat -> Script, n: nat)
    ensures
      |Through(s, push, n + 1)| == |Through(s, push, n)| + if GetsThrough(s, push, n) then 1 else 0
  {
    if GetsThrough(s, push, n) {
      assert Through(s, push, n + 1) == Through(s, push, n) + {n};
    } else {
      assert Through(s, push, n + 1) == Through(s, push, n);
    }
  }

  lemma {:induction false} DeliveredCounts(s: Settings, push: nat -> Script, n: nat)
    ensures Delivered(s, push, n) == |Through(s, push, n)|
  {
    if n > 0 {
      DeliveredCounts(s, push, n - 1);
      ThroughNext(s, push, n - 1);
    }
  }

  /** The push loop of `runOnce` over `n` updates. */
  method PushAll(s: Settings, push: nat -> Script, n: nat) returns (report: Report)
    requires Int64Settings(s)
    ensures report.synced == Delivered(s, push, n) && report.synced + report.failed == n
    ensures report.pushes <= MaxPushes(s, n)
  {
    var synced, failed, pushes := 0, 0, 0;
    for i := 0 to n
      invariant synced == Delivered(s, push, i) && synced + failed == i
      invariant 0 <= pushes <= MaxPushes(s, i)
    {
      var pushError, calls, sleeps := WithRetry(s, push(i));
      pushes := pushes + calls;
      if pushError.Some? { failed := failed + 1; } else { synced := synced + 1; }
    }
    report := Report(synced, failed, pushes);
  }

  /** One cycle: every fetched update is pushed and counted once, a fallback pushes nothing. */
  method RunOnce(s: Settings, svc: SyncService, batchSize: int, cycle: Cycle) returns (report: Report)
    requires Int64Settings(s) && svc.Valid() && (cycle.response != null ==> cycle.response != svc.lastKnown)
    modifies svc
    ensures svc.Valid()
    ensures !Succeeds(s, cycle.fetch) ==> report == Report(0, 0, 0)
    ensures Succeeds(s, cycle.fetch) ==>
      var n := |Contents(cycle.response)|;
      && report.synced == Delivered(s, cycle.push, n)
      && report.synced + report.failed == n
      && report.pushes <= MaxPushes(s, n)
  {
    report := Report(0, 0, 0);
    var updates, fallbackUsed, error := FetchUpdatesWithRetry(s, svc, batchSize, cycle);
    if error.Some? || fallbackUsed { return; }
    report := PushAll(s, cycle.push, |Contents(updates)|);
  }
}
