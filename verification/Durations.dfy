/**
 * Where a configured or drawn duration is honoured exactly. Durations are int64 nanoseconds,
 * SQL intervals whole seconds or milliseconds, database timestamps microseconds. Random draws
 * are exact numbers in [0,1).
 */
module Durations {
  import opened Common

  const NANOS_PER_SECOND := 1_000_000_000
  const MICROS_PER_SECOND := 1_000_000
  const TWO62: int := 0x4000_0000_0000_0000
  const TWO63: int := 0x8000_0000_0000_0000
  const TWO64: int := 0x1_0000_0000_0000_0000

  /** Two's-complement int64. */
  function Wrap64(x: int): int {
    (x + TWO63) % TWO64 - TWO63
  }

  /** Conversion of a float to an integer type: towards zero. */
  function Trunc(x: real): int {
    if x >= 0.0 then x.Floor else -(-x).Floor
  }

  /** r is d plus or minus a quarter of it. */
  predicate WithinQuarter(r: int, d: int) {
    3 * d <= 4 * r <= 5 * d
  }

  /** A quarter up or down stays one as long as the sum fits, and the sum wraps around otherwise. */
  lemma TruncWithin(x: real, d: int)
    requires 0 < d < TWO63 && -0.25 * d as real <= x <= 0.25 * d as real
    ensures WithinQuarter(Wrap64(d + Trunc(x)), d) <==> d + Trunc(x) < TWO63
  {
    var r := d + Trunc(x);
    assert WithinQuarter(r, d);
    if r < TWO63 {
      DivUnique(r + TWO63, TWO64, 0, r + TWO63);
    } else {
      DivUnique(r + TWO63, TWO64, 1, r - TWO63);
    }
  }

  // ---- retryBackoff ------------------------------------------------------------

  /** int64(1) << attempts */
  function Shifted(attempts: nat): int {
    if attempts < 63 then Pow2(attempts) else if attempts == 63 then -TWO63 else 0
  }

  /** ±25% of n, as drawn with u. */
  function Jittered(n: real, u: real): real {
    n + (u - 0.5) * 0.5 * n
  }

  function RetryNanos(attempts: nat, u: real): real {
    Jittered(Shifted(attempts) as real * NANOS_PER_SECOND as real, u)
  }

  /** The float converts to a Duration, and lies within 25% of 2^attempts seconds. */
  predicate RetryHonoured(attempts: nat, u: real) {
    var nominal := Pow2(attempts) as real * NANOS_PER_SECOND as real;
    && 0.0 <= RetryNanos(attempts, u) < TWO63 as real
    && 0.75 * nominal <= RetryNanos(attempts, u) <= 1.25 * nominal
  }

  lemma Pow2Landmarks()
    ensures Pow2(32) == 0x1_0000_0000 && Pow2(33) == 0x2_0000_0000 && Pow2(34) == 0x4_0000_0000
  {
    assert Pow2(8) == 256;
    assert Pow2(16) == 65536;
    assert Pow2(24) == 16777216;
    assert Pow2(32) == 4294967296;
  }

  lemma ProductNonNegative(a: real, b: real)
    requires a >= 0.0 && b >= 0.0
    ensures a * b >= 0.0
  {
  }

  lemma Spread(n: real, u: real)
    requires n >= 0.0 && 0.0 <= u < 1.0
    ensures 0.75 * n <= Jittered(n, u) <= 1.25 * n
  {
    var x := u * n;
    ProductNonNegative(u, n);
    ProductNonNegative(1.0 - u, n);
    assert (1.0 - u) * n == n - x;
    assert (u - 0.5) * 0.5 * n == 0.5 * x - 0.25 * n;
  }

  lemma SmallRetryHonoured(attempts: nat, u: real)
    requires attempts <= 32 && 0.0 <= u < 1.0
    ensures RetryHonoured(attempts, u)
  {
    var n := Pow2(attempts) as real * NANOS_PER_SECOND as real;
    assert 1.25 * n < TWO63 as real by {
      Pow2Landmarks();
      Pow2Monotone(attempts, 32);
    }
    assert 0.75 * n <= RetryNanos(attempts, u) <= 1.25 * n by {
      Spread(n, u);
    }
  }

  lemma LargeRetryLost(attempts: nat) returns (u: real)
    requires attempts > 32
    ensures 0.0 <= u < 1.0 && !RetryHonoured(attempts, u)
  {
    Pow2Landmarks();
    var nominal := Pow2(attempts) as real * NANOS_PER_SECOND as real;
    if attempts == 33 {
      u := 0.9;
      assert RetryNanos(33, u) == 1.2 * nominal;
    } else {
      u := 0.5;
      Pow2Monotone(34, attempts);
      assert nominal >= 17179869184.0 * 1000000000.0;
      if attempts < 63 {
        assert RetryNanos(attempts, u) == nominal;
      }
    }
  }

  /** Every draw gives a delay within its bound if and only if attempts <= 32. */
  lemma RetryDelayLands(attempts: nat)
    ensures (forall u | 0.0 <= u < 1.0 :: RetryHonoured(attempts, u)) <==> attempts <= 32
  {
    if attempts <= 32 {
      forall u | 0.0 <= u < 1.0 ensures RetryHonoured(attempts, u) {
        SmallRetryHonoured(attempts, u);
      }
    } else {
      var u := LargeRetryLost(attempts);
    }
  }

  /** Duration.Milliseconds: towards zero. */
  function ToMillis(nanos: int): int {
    if nanos >= 0 then nanos / 1_000_000 else -(-nanos / 1_000_000)
  }

  predicate Fits(x: real) {
    -TWO63 <= Trunc(x) < TWO63
  }

  /** The milliseconds put into the retry statement. `overflow` is what the platform makes of a float that
      does not fit an int64; on amd64 that is the smallest int64. */
  function RetryMillis(attempts: nat, u: real, overflow: int): int {
    ToMillis(if Fits(RetryNanos(attempts, u)) then Trunc(RetryNanos(attempts, u)) else overflow)
  }

  lemma RetryMillisBounds(attempts: nat, u: real, overflow: int)
    requires 1 <= attempts <= 32 && 0.0 <= u < 1.0
    ensures 750 * Pow2(attempts) <= RetryMillis(attempts, u, overflow) <= 1250 * Pow2(attempts)
  {
    SmallRetryHonoured(attempts, u);
    var p := Pow2(attempts);
    var ns := Trunc(RetryNanos(attempts, u));
    assert RetryNanos(attempts, u) >= (750 * p * 1_000_000) as real;
    assert RetryNanos(attempts, u) <= (1250 * p * 1_000_000) as real;
    assert 750 * p * 1_000_000 <= ns <= 1250 * p * 1_000_000;
  }

  /** Whole milliseconds of the drawn nanoseconds, the rest cut off. */
  lemma RetryMillisCut(attempts: nat, u: real, overflow: int)
    requires attempts <= 32 && 0.0 <= u < 1.0
    ensures RetryMillis(attempts, u, overflow) as real * 1_000_000.0 <= RetryNanos(attempts, u)
            < (RetryMillis(attempts, u, overflow) + 1) as real * 1_000_000.0
  {
    SmallRetryHonoured(attempts, u);
  }

  /** The shifted-out bit: from attempt 64 on there is no delay at all. */
  lemma NoDelayFrom64(attempts: nat, u: real, overflow: int)
    requires attempts >= 64
    ensures RetryMillis(attempts, u, overflow) == 0
  {
    assert RetryNanos(attempts, u) == 0.0;
  }

  lemma FitsAt33(u: real)
    requires 0.0 <= u < 1.0
    ensures Fits(RetryNanos(33, u)) <==> u < 0.647483648
  {
    Pow2Landmarks();
    assert RetryNanos(33, u) == 8589934592000000000.0 * (0.75 + 0.5 * u);
    assert TWO63 as real == 8589934592000000000.0 * 1.073741824;
  }

  lemma NeverFits(attempts: nat, u: real)
    requires 34 <= attempts <= 63 && 0.0 <= u < 1.0
    ensures !Fits(RetryNanos(attempts, u))
  {
    Pow2Landmarks();
    if attempts == 63 {
      var n := TWO63 as real * NANOS_PER_SECOND as real;
      Spread(n, u);
      assert RetryNanos(63, u) == -Jittered(n, u);
    } else {
      var n := Pow2(attempts) as real * NANOS_PER_SECOND as real;
      Spread(n, u);
      Pow2Monotone(34, attempts);
      assert n >= 17179869184.0 * 1000000000.0;
    }
  }

  /** The float fits a Duration up to attempt 32 and from 64 on, and at attempt 33 for the draws below
      0.647483648, which is 2 * 2^30 / 10^9 - 1.5; elsewhere the platform decides. */
  lemma DelayOverflows(attempts: nat, u: real, overflow: int)
    requires 0.0 <= u < 1.0
    ensures Fits(RetryNanos(attempts, u)) <==>
            attempts <= 32 || (attempts == 33 && u < 0.647483648) || attempts >= 64
    ensures !Fits(RetryNanos(attempts, u)) ==> RetryMillis(attempts, u, overflow) == ToMillis(overflow)
  {
    if attempts <= 32 {
      SmallRetryHonoured(attempts, u);
    } else if attempts == 33 {
      FitsAt33(u);
    } else if attempts <= 63 {
      NeverFits(attempts, u);
    } else {
      assert RetryNanos(attempts, u) == 0.0;
    }
  }

  // ---- the sweeper's threshold ----------------------------------------------------

  /** "%d seconds" of the configured threshold, five minutes when it is not positive. */
  function SweepMicros(threshold: int): int {
    (if threshold <= 0 then 300 * NANOS_PER_SECOND else threshold) / NANOS_PER_SECOND * MICROS_PER_SECOND
  }

  /** The retention window as the statement has it: whole seconds. */
  function RetentionMicros(window: int): int {
    window / NANOS_PER_SECOND * MICROS_PER_SECOND
  }

  /** A job that was finished no longer ago than the configured window is deleted. */
  predicate DeletedEarly(window: int, updatedAt: int, now: int) {
    updatedAt < now - RetentionMicros(window) && (now - updatedAt) * 1000 <= window
  }

  /** No job is deleted within the configured window, if and only if that window is a whole number of seconds
      (up to the microsecond the database resolves). */
  lemma WindowHonoured(window: int)
    requires window > 0
    ensures (forall updatedAt: int, now: int :: !DeletedEarly(window, updatedAt, now))
            <==> window % NANOS_PER_SECOND < 1000
  {
    assert window == RetentionMicros(window) * 1000 + window % NANOS_PER_SECOND;
    if window % NANOS_PER_SECOND >= 1000 {
      assert DeletedEarly(window, 0, RetentionMicros(window) + 1);
    }
  }

  /** A lease no older than the configured threshold is recovered. */
  predicate RecoveredEarly(threshold: int, lockedAt: int, now: int) {
    lockedAt < now - SweepMicros(threshold) && (now - lockedAt) * 1000 <= threshold
  }

  /** No lease is recovered before the configured threshold, if and only if that threshold is a
      whole number of seconds (up to the microsecond the database resolves). */
  lemma ThresholdHonoured(threshold: int)
    ensures threshold > 0 ==> ((forall lockedAt: int, now: int :: !RecoveredEarly(threshold, lockedAt, now))
                               <==> threshold % NANOS_PER_SECOND < 1000)
    ensures threshold <= 0 ==> SweepMicros(threshold) == 300_000_000
  {
    assert threshold > 0 ==> threshold == SweepMicros(threshold) * 1000 + threshold % NANOS_PER_SECOND;
    if threshold > 0 && threshold % NANOS_PER_SECOND >= 1000 {
      assert RecoveredEarly(threshold, 0, SweepMicros(threshold) + 1);
    }
  }
}
