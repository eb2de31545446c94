/** The pod's shared idle backoff: its schedule, and the list of sleeping goroutines. */
module IdleBackoff {
  import opened Common
  import opened Durations

  const MS := 1_000_000

  /** One step of the schedule: 50ms, 200ms, 500ms, 1s by name, doubling otherwise, never above the maximum. */
  function Advance(nominal: int, maxDelay: int): int {
    var next := if nominal == 50 * MS then 200 * MS
                else if nominal == 200 * MS then 500 * MS
                else if nominal == 500 * MS then 1000 * MS
                else Min(Wrap64(nominal * 2), maxDelay);
    Min(next, maxDelay)
  }

  /** The nominal delay after k advances without a wake. */
  function NominalAt(k: nat, base: int, maxDelay: int): int {
    if k == 0 then base else Advance(NominalAt(k - 1, base, maxDelay), maxDelay)
  }

  lemma AdvanceAtLeastDoubles(n: int, maxDelay: int)
    requires 0 < n <= maxDelay < TWO62
    ensures Min(2 * n, maxDelay) <= Advance(n, maxDelay) <= maxDelay
  {
  }

  lemma DoublePower(base: int, k: nat)
    requires k > 0
    ensures base * Pow2(k) == 2 * (base * Pow2(k - 1))
  {
  }

  /** Between the doubling schedule and the maximum, and at the maximum for good. */
  lemma {:induction false} NominalBounds(k: nat, base: int, maxDelay: int)
    requires 0 < base <= maxDelay < TWO62
    ensures Min(base * Pow2(k), maxDelay) <= NominalAt(k, base, maxDelay) <= maxDelay
    ensures 0 < NominalAt(k, base, maxDelay)
  {
    if k == 0 {
    } else {
      NominalBounds(k - 1, base, maxDelay);
      DoublePower(base, k);
      AdvanceAtLeastDoubles(NominalAt(k - 1, base, maxDelay), maxDelay);
    }
  }

  /** At the maximum the delay stays there, however many advances follow. */
  lemma {:induction false} StaysAtMax(k: nat, n: nat, base: int, maxDelay: int)
    requires 0 < base <= maxDelay < TWO62 && NominalAt(k, base, maxDelay) == maxDelay
    ensures NominalAt(k + n, base, maxDelay) == maxDelay
    decreases n
  {
    if n == 0 {
    } else {
      StaysAtMax(k, n - 1, base, maxDelay);
      AdvanceAtLeastDoubles(maxDelay, maxDelay);
    }
  }

  /** The steps from 50 ms on without a maximum. */
  function Step(k: nat): int {
    if k == 0 then 50_000_000
    else if k == 1 then 200_000_000
    else if k == 2 then 500_000_000
    else 1_000_000_000 * Pow2(k - 3)
  }

  lemma StepDoubles(k: nat)
    requires k >= 3
    ensures Step(k) >= 1_000_000_000 && Step(k + 1) == 2 * Step(k)
  {
  }

  /** From 50 ms the delay goes through 200 ms, 500 ms and 1 s and doubles from there, up to the maximum. */
  lemma {:induction false} NamedSchedule(k: nat, maxDelay: int)
    requires 50_000_000 <= maxDelay < TWO62
    ensures NominalAt(k, 50_000_000, maxDelay) == Min(Step(k), maxDelay)
  {
    if k == 0 {
    } else {
      NamedSchedule(k - 1, maxDelay);
      if k > 3 {
        StepDoubles(k - 1);
      }
    }
  }

  predicate Named(n: int) {
    n == 50_000_000 || n == 200_000_000 || n == 500_000_000
  }

  lemma PlainStep(v: int, maxDelay: int)
    requires 0 < v && maxDelay < TWO62 && 0 < maxDelay && !Named(v)
    ensures Advance(Min(v, maxDelay), maxDelay) == Min(2 * v, maxDelay)
  {
  }

  lemma PositivePower(base: int, k: nat)
    requires base > 0
    ensures base * Pow2(k) > 0
  {
  }

  /** From a base whose doubles meet none of the named steps it doubles all the way. */
  lemma {:induction false} PlainSchedule(k: nat, base: int, maxDelay: int)
    requires 0 < base <= maxDelay < TWO62 && forall j: nat | j < k :: !Named(base * Pow2(j))
    ensures NominalAt(k, base, maxDelay) == Min(base * Pow2(k), maxDelay)
  {
    if k == 0 {
    } else {
      PlainSchedule(k - 1, base, maxDelay);
      DoublePower(base, k);
      PositivePower(base, k - 1);
      PlainStep(base * Pow2(k - 1), maxDelay);
    }
  }

  lemma Pow2Of62()
    ensures Pow2(62) == TWO62
  {
    assert Pow2(8) == 256;
    assert Pow2(16) == 65536;
    assert Pow2(24) == 16777216;
    assert Pow2(32) == 4294967296;
    assert Pow2(40) == 1099511627776;
    assert Pow2(48) == 281474976710656;
    assert Pow2(56) == 72057594037927936;
  }

  predicate SafeAt(k: nat, base: int, maxDelay: int) {
    0 < NominalAt(k, base, maxDelay) <= maxDelay
  }

  /** Were the schedule safe, it would reach 2^62 within 62 steps. */
  lemma {:induction false} ReachesHalf(k: nat, base: int, maxDelay: int)
    requires 0 < base && TWO62 <= maxDelay < TWO63 && k <= 62
    requires forall j: nat | j <= k :: SafeAt(j, base, maxDelay)
    ensures Min(Pow2(k), TWO62) <= NominalAt(k, base, maxDelay)
  {
    if k == 0 {
    } else {
      ReachesHalf(k - 1, base, maxDelay);
      var n := NominalAt(k - 1, base, maxDelay);
      assert SafeAt(k - 1, base, maxDelay) && SafeAt(k, base, maxDelay);
      assert Wrap64(n * 2) == if n < TWO62 then n * 2 else n * 2 - TWO64;
    }
  }

  lemma WrapsAround(base: int, maxDelay: int) returns (k: nat)
    requires 0 < base && TWO62 <= maxDelay < TWO63
    ensures !SafeAt(k, base, maxDelay)
  {
    if j: nat :| j <= 62 && !SafeAt(j, base, maxDelay) {
      k := j;
    } else {
      Pow2Of62();
      ReachesHalf(62, base, maxDelay);
      var n := NominalAt(62, base, maxDelay);
      assert SafeAt(62, base, maxDelay);
      k := 63;
      assert NominalAt(k, base, maxDelay) == Advance(n, maxDelay);
    }
  }

  /** The delay stays a positive duration up to the maximum forever, if and only if the maximum is below 2^62 ns;
      otherwise doubling it wraps around and the workers stop sleeping. */
  lemma NominalSafe(base: int, maxDelay: int)
    requires 0 < base <= maxDelay < TWO63
    ensures (forall k: nat :: SafeAt(k, base, maxDelay)) <==> maxDelay < TWO62
  {
    if maxDelay < TWO62 {
      forall k: nat ensures SafeAt(k, base, maxDelay) {
        NominalBounds(k, base, maxDelay);
      }
    } else {
      var k := WrapsAround(base, maxDelay);
    }
  }

  function Swing(d: real, u: real): real {
    (u - 0.5) * (d * 0.5)
  }

  /** The delay slept: the nominal one, plus or minus a quarter. */
  function JitteredDelay(d: int, u: real): int {
    if d <= 0 then 0 else Wrap64(d + Trunc(Swing(d as real, u)))
  }

  lemma SwingBounds(d: real, u: real)
    requires d > 0.0 && 0.0 <= u < 1.0
    ensures -0.25 * d <= Swing(d, u) < 0.25 * d
  {
    var x := u * d;
    ProductNonNegative(u, d);
    assert (1.0 - u) * d > 0.0;
    assert (1.0 - u) * d == d - x;
    assert (u - 0.5) * (d * 0.5) == 0.5 * x - 0.25 * d;
  }

  /** The draw that adds just so much. */
  lemma SwingReaches(d: real, m: real) returns (u: real)
    requires d > 0.0 && 0.0 <= m && 4.0 * m < d
    ensures 0.0 <= u < 1.0 && Swing(d, u) == m
  {
    var q := m / d;
    assert q * d == m;
    ProductNonNegative(m, 1.0 / d);
    assert q >= 0.0;
    assert 4.0 * q < 1.0 by {
      var over := (4.0 * q - 1.0) * d;
      assert over == 4.0 * m - d;
      if 4.0 * q >= 1.0 {
        ProductNonNegative(4.0 * q - 1.0, d);
      }
    }
    u := 0.5 + 2.0 * q;
    assert (u - 0.5) * (d * 0.5) == q * d;
  }

  /** Whatever is drawn, the delay is within a quarter of the nominal one, if and only if that one is at most
      four fifths of 2^63 ns. */
  lemma DelayWithinQuarter(d: int)
    requires d < TWO63
    ensures d > 0 ==> ((forall u | 0.0 <= u < 1.0 :: WithinQuarter(JitteredDelay(d, u), d)) <==> 5 * d <= 4 * TWO63)
    ensures d <= 0 ==> forall u: real :: JitteredDelay(d, u) == 0
  {
    if d <= 0 {
    } else if 5 * d <= 4 * TWO63 {
      forall u | 0.0 <= u < 1.0 ensures WithinQuarter(JitteredDelay(d, u), d) {
        SwingBounds(d as real, u);
        TruncWithin(Swing(d as real, u), d);
      }
    } else {
      var m := (d - 1) / 4;
      var u := SwingReaches(d as real, m as real);
      TruncWithin(Swing(d as real, u), d);
      assert !WithinQuarter(JitteredDelay(d, u), d);
    }
  }

  // ---- the object ---------------------------------------------------------------------

  function Without(ws: seq<nat>, ch: nat): seq<nat> {
    if |ws| == 0 then [] else if ws[0] == ch then ws[1..] else [ws[0]] + Without(ws[1..], ch)
  }

  lemma {:induction false} WithoutAt(ws: seq<nat>, ch: nat, k: nat)
    requires k <= |ws| && forall j | 0 <= j < k :: ws[j] != ch
    requires k < |ws| ==> ws[k] == ch
    ensures Without(ws, ch) == if k < |ws| then ws[..k] + ws[k + 1..] else ws
  {
    if k > 0 {
      var t := ws[1..];
      WithoutAt(t, ch, k - 1);
      assert ws == [ws[0]] + t;
      if k < |ws| {
        assert ws[..k] + ws[k + 1..] == [ws[0]] + (t[..k - 1] + t[k..]);
      }
    } else if |ws| > 0 {
      assert ws[..0] + ws[1..] == ws[1..];
    }
  }

  /** The object's state: the nominal delay and the channels of the sleepers. */
  datatype IdleState = IdleState(nominal: int, wakers: seq<nat>)

  function Entered(st: IdleState, ch: nat, maxDelay: int): IdleState {
    IdleState(Advance(st.nominal, maxDelay), st.wakers + [ch])
  }

  function Left(st: IdleState, ch: nat): IdleState {
    st.(wakers := Without(st.wakers, ch))
  }

  function Restarted(base: int): IdleState {
    IdleState(base, [])
  }

  class Idle {
    const baseDelay: int
    const maxDelay: int
    var nominal: int
    var wakers: seq<nat>

    constructor (base: int, maxDelay: int)
      ensures baseDelay == (if base <= 0 then 50 * MS else base)
      ensures this.maxDelay == (if maxDelay <= 0 then 1000 * MS else maxDelay)
      ensures Value() == Restarted(baseDelay)
    {
      baseDelay := if base <= 0 then 50 * MS else base;
      this.maxDelay := if maxDelay <= 0 then 1000 * MS else maxDelay;
      nominal := if base <= 0 then 50 * MS else base;
      wakers := [];
    }

    function Value(): IdleState
      reads this
    {
      IdleState(nominal, wakers)
    }

    /** WaitOnce up to the select: the delay to sleep, with the goroutine's channel listed. */
    method Enter(ch: nat, u: real) returns (delay: int)
      requires 0.0 <= u < 1.0
      modifies this`nominal, this`wakers
      ensures delay == JitteredDelay(old(nominal), u)
      ensures Value() == Entered(old(Value()), ch, maxDelay)
    {
      delay := JitteredDelay(nominal, u);
      AdvanceSchedule();
      wakers := wakers + [ch];
    }

    method AdvanceSchedule()
      modifies this`nominal
      ensures nominal == Advance(old(nominal), maxDelay)
    {
      if nominal == 50 * MS {
        nominal := 200 * MS;
      } else if nominal == 200 * MS {
        nominal := 500 * MS;
      } else if nominal == 500 * MS {
        nominal := 1000 * MS;
      } else {
        var next := Wrap64(nominal * 2);
        if next > maxDelay {
          next := maxDelay;
        }
        nominal := next;
      }
      if nominal > maxDelay {
        nominal := maxDelay;
      }
    }

    /** WaitOnce after the select: the channel leaves the list, if it is still there. */
    method Leave(ch: nat)
      modifies this`wakers
      ensures Value() == Left(old(Value()), ch)
    {
      var k := 0;
      while k < |wakers| && wakers[k] != ch
        invariant k <= |wakers| && forall j | 0 <= j < k :: wakers[j] != ch
      {
        k := k + 1;
      }
      WithoutAt(wakers, ch, k);
      if k < |wakers| {
        wakers := wakers[..k] + wakers[k + 1..];
      }
    }

    /** WakeAll under the mutex: the schedule restarts and the list is taken. */
    method TakeAll() returns (taken: seq<nat>)
      modifies this`nominal, this`wakers
      ensures Value() == Restarted(baseDelay) && taken == old(wakers)
    {
      nominal := baseDelay;
      taken := wakers;
      wakers := [];
    }
  }
}
