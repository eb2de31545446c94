/**
 * The cluster-wide cap on transfers per host: each transfer holds, on a database session of its own,
 * one of `cap` advisory locks whose keys are hashes of slot names. Nothing is assumed of the hash
 * except where said; the starting slot of a probe is any slot.
 */
module HostCap {
  import opened Common
  import opened Decimal
  import opened Durations

  function SlotKey(host: string, slot: int): string {
    "ftp_host_" + host + "_" + Itoa(slot)
  }

  /** Every slot of every host has a name of its own. */
  lemma SlotKeyInjective(h: string, a: nat, k: string, b: nat)
    requires SlotKey(h, a) == SlotKey(k, b)
    ensures h == k && a == b
  {
    var start := "ftp_host_";
    assert SlotKey(h, a) == (start + h) + ['_'] + Digits(a);
    assert SlotKey(k, b) == (start + k) + ['_'] + Digits(b);
    NumberAtEnd(start + h, a, start + k, b, '_');
    assert h == (start + h)[|start|..] && k == (start + k)[|start|..];
  }

  /** hashtext(slotKey(host, slot)) under a given hash. */
  function LockKey(hash: string -> int, host: string, slot: int): int {
    hash(SlotKey(host, slot))
  }

  // ---- the wrap-around probe ----------------------------------------------------

  function ProbeSlot(start: nat, i: nat, cap: nat): (slot: nat)
    requires cap > 0
    ensures slot < cap
  {
    (start + i) % cap
  }

  /** One round visits every slot exactly once: the visit of `slot` is the only one. */
  lemma ProbeVisitsOnce(start: nat, cap: nat, slot: nat) returns (i: nat)
    requires start < cap && slot < cap
    ensures i < cap && ProbeSlot(start, i, cap) == slot
    ensures forall j | 0 <= j < cap && ProbeSlot(start, j, cap) == slot :: j == i
  {
    i := if slot >= start then slot - start else slot + cap - start;
    forall j | 0 <= j < cap ensures ProbeSlot(start, j, cap) == if start + j < cap then start + j else start + j - cap {
      if start + j < cap {
        DivUnique(start + j, cap, 0, start + j);
      } else {
        DivUnique(start + j, cap, 1, start + j - cap);
      }
    }
  }

  /** How a round of probes ends. */
  datatype Probed = Got(slot: nat) | LockError | AllTaken

  /** What one round meets: at each probe, the keys other sessions hold then; and perhaps a failing probe. */
  datatype Round = Round(busy: seq<set<int>>, failAt: Option<nat>)

  /** The i-th probe neither fails nor gets its slot. */
  predicate Refused(key: nat -> int, start: nat, cap: nat, r: Round, i: nat)
    requires cap > 0 && i < |r.busy|
  {
    r.failAt != Some(i) && key(ProbeSlot(start, i, cap)) in r.busy[i]
  }

  /** Every probe of the round is refused. */
  ghost predicate Exhausts(key: nat -> int, start: nat, cap: nat, r: Round)
    requires cap > 0 && |r.busy| == cap
  {
    forall i: nat | i < cap :: Refused(key, start, cap, r, i)
  }

  /** The slot was free when the round probed it. */
  ghost predicate FoundIn(key: nat -> int, start: nat, cap: nat, r: Round, slot: nat)
    requires cap > 0 && |r.busy| == cap
  {
    exists i: nat :: i < cap && slot == ProbeSlot(start, i, cap) && key(slot) !in r.busy[i]
  }

  /** How the round ends from its i-th probe on. */
  function RoundFrom(key: nat -> int, start: nat, cap: nat, r: Round, i: nat): Probed
    requires i <= cap && cap > 0 && |r.busy| == cap
    decreases cap - i
  {
    if i == cap then AllTaken
    else if Refused(key, start, cap, r, i) then RoundFrom(key, start, cap, r, i + 1)
    else if r.failAt == Some(i) then LockError
    else Got(ProbeSlot(start, i, cap))
  }

  /** One round of pg_try_advisory_lock, each probe a statement of its own: it ends at the first probe that is
      not refused, with that probe's slot or its error, and finds all taken if and only if every probe is. */
  method ProbeRound(key: nat -> int, start: nat, cap: nat, r: Round) returns (p: Probed, ghost visit: nat)
    requires start < cap && |r.busy| == cap
    ensures p == RoundFrom(key, start, cap, r, 0)
    ensures p.AllTaken? <==> Exhausts(key, start, cap, r)
    ensures p.Got? ==> FoundIn(key, start, cap, r, p.slot)
    ensures visit <= cap && forall j | 0 <= j < visit :: Refused(key, start, cap, r, j)
    ensures p.AllTaken? <==> visit == cap
    ensures visit < cap ==> !Refused(key, start, cap, r, visit) && (p.LockError? <==> r.failAt == Some(visit))
    ensures p.Got? ==> p.slot == ProbeSlot(start, visit, cap) && key(p.slot) !in r.busy[visit]
  {
    visit := cap;
    for i := 0 to cap
      invariant forall j | 0 <= j < i :: Refused(key, start, cap, r, j)
      invariant RoundFrom(key, start, cap, r, 0) == RoundFrom(key, start, cap, r, i)
    {
      var slot := (start + i) % cap;
      if r.failAt == Some(i) {
        visit := i;
        assert !Refused(key, start, cap, r, i);
        return LockError, visit;
      }
      if key(slot) !in r.busy[i] {
        visit := i;
        assert !Refused(key, start, cap, r, i);
        return Got(slot), visit;
      }
    }
    return AllTaken, visit;
  }

  /** A slot that is free throughout the round is found, if not an earlier one. */
  lemma SteadySlotFound(key: nat -> int, start: nat, cap: nat, r: Round, slot: nat)
    requires start < cap && slot < cap && |r.busy| == cap
    requires forall i | 0 <= i < cap :: key(slot) !in r.busy[i]
    ensures !Exhausts(key, start, cap, r)
  {
    var i := ProbeVisitsOnce(start, cap, slot);
    assert !Refused(key, start, cap, r, i);
  }

  function UpTo(n: nat): (s: set<nat>)
    ensures |s| == n && forall i: nat :: i in s <==> i < n
  {
    if n == 0 then {} else UpTo(n - 1) + {n - 1}
  }

  /** Under a hash that is injective on the host's slot keys, a round finds a slot when all the keys held by
      others at some time during it are fewer than cap. */
  lemma FreeSlotFound(key: nat -> int, start: nat, cap: nat, r: Round, busy: set<int>)
    requires forall a, b | 0 <= a < b < cap :: key(a) != key(b)
    requires start < cap && |r.busy| == cap && |busy| < cap && forall i | 0 <= i < cap :: r.busy[i] <= busy
    ensures !Exhausts(key, start, cap, r)
  {
    if forall s: nat | s < cap :: key(s) in busy {
      InjectionBound(UpTo(cap), key, busy);
    } else {
      var s: nat :| s < cap && key(s) !in busy;
      SteadySlotFound(key, start, cap, r, s);
    }
  }

  /** Pigeonhole: an injection of `a` into `b`. */
  lemma {:induction false} InjectionBound<T>(a: set<nat>, f: nat -> T, b: set<T>)
    requires forall x | x in a :: f(x) in b
    requires forall x, y | x in a && y in a && x != y :: f(x) != f(y)
    ensures |a| <= |b|
    decreases |a|
  {
    if a != {} {
      var x :| x in a;
      InjectionBound(a - {x}, f, b - {f(x)});
    }
  }

  // ---- the waiting schedule ------------------------------------------------------------

  const MAX_BACKOFF := 2_000_000_000

  function NextBackoff(cur: int, base: int): int {
    var b := if base <= 0 then 100_000_000 else base;
    var c := if cur < b then b else cur;
    var next := Wrap64(c * 2);
    if next > MAX_BACKOFF then MAX_BACKOFF else next
  }

  /** The wait before round k + 1. */
  function WaitAt(k: nat, base: int): int {
    if k == 0 then base else NextBackoff(WaitAt(k - 1, base), base)
  }

  /** The first n waits. */
  function Schedule(n: nat, base: int): seq<int> {
    if n == 0 then [] else Schedule(n - 1, base) + [WaitAt(n - 1, base)]
  }

  lemma {:induction false} ScheduleAt(n: nat, base: int)
    ensures |Schedule(n, base)| == n && forall k | 0 <= k < n :: Schedule(n, base)[k] == WaitAt(k, base)
  {
    if n == 0 {
    } else {
      ScheduleAt(n - 1, base);
    }
  }

  lemma BackoffExact(cur: int, base: int)
    requires 0 < base < TWO62 && cur < TWO62
    ensures NextBackoff(cur, base) == Min(2 * (if cur < base then base else cur), MAX_BACKOFF)
  {
  }

  lemma {:induction false} WaitDoubles(k: nat, base: int)
    requires 0 < base < TWO62 && k >= 1
    ensures WaitAt(k, base) == Min(Pow2(k) * base, MAX_BACKOFF)
  {
    var p := Pow2(k - 1) * base;
    assert Pow2(k) * base == 2 * p;
    AtLeastOnce(Pow2(k - 1), base);
    if k == 1 {
      BackoffExact(base, base);
    } else {
      WaitDoubles(k - 1, base);
      BackoffExact(Min(p, MAX_BACKOFF), base);
    }
  }

  lemma AtLeastOnce(m: int, base: int)
    requires m >= 1 && base > 0
    ensures m * base >= base
  {
  }

  /** Without a positive base the schedule is that of 100 ms. */
  lemma {:induction false} WaitWithoutBase(k: nat, base: int)
    requires base <= 0 && k >= 1
    ensures WaitAt(k, base) == WaitAt(k, 100_000_000)
  {
    if k == 1 {
    } else {
      WaitWithoutBase(k - 1, base);
    }
  }

  /** From the second round on the wait is min(2^k * base, 2 s), for every k, if and only if base < 2^62 ns;
      a larger base wraps around to a negative wait. A base that is not positive counts as 100 ms. */
  lemma WaitSchedule(base: int)
    requires base < TWO63
    ensures (forall k: nat | k >= 1 ::
               WaitAt(k, base) == Min(Pow2(k) * (if base <= 0 then 100_000_000 else base), 2_000_000_000))
            <==> base < TWO62
  {
    if base < TWO62 {
      forall k: nat | k >= 1
        ensures WaitAt(k, base) == Min(Pow2(k) * (if base <= 0 then 100_000_000 else base), MAX_BACKOFF)
      {
        if base <= 0 {
          WaitWithoutBase(k, base);
          WaitDoubles(k, 100_000_000);
        } else {
          WaitDoubles(k, base);
        }
      }
    } else {
      assert WaitAt(1, base) == NextBackoff(base, base) == base * 2 - TWO64;
      assert Pow2(1) == 2;
      assert WaitAt(1, base) != Min(Pow2(1) * base, MAX_BACKOFF);
    }
  }

  function Fraction(seed: nat): (f: real)
    ensures -1.0 <= f <= 0.998
  {
    (seed % 1000) as real / 1000.0 * 2.0 - 1.0
  }

  function Offset(f: real, d: real): real {
    f * 0.25 * d
  }

  /** d perturbed by up to a quarter, as the seed has it. */
  function JitteredWait(d: int, seed: nat): int {
    if d <= 0 then d else Wrap64(d + Trunc(Offset(Fraction(seed), d as real)))
  }

  lemma OffsetBounds(f: real, d: real)
    requires d >= 0.0 && -1.0 <= f <= 0.998
    ensures -0.25 * d <= Offset(f, d) <= 0.2495 * d
  {
    var x := f * d;
    ProductNonNegative(f + 1.0, d);
    ProductNonNegative(0.998 - f, d);
    assert (f + 1.0) * d == x + d && (0.998 - f) * d == 0.998 * d - x;
    assert f * 0.25 * d == 0.25 * x;
  }

  /** Whatever the seed, the wait is within a quarter of d, if and only if the largest offset, 0.2495 of d, does
      not push it to 2^63 ns. */
  lemma JitterWithinQuarter(d: int)
    requires d < TWO63
    ensures d > 0 ==> ((forall seed: nat :: WithinQuarter(JitteredWait(d, seed), d)) <==> 2499 * d < 2000 * TWO63)
    ensures d <= 0 ==> forall seed: nat :: JitteredWait(d, seed) == d
  {
    if d <= 0 {
    } else if 2499 * d < 2000 * TWO63 {
      forall seed: nat ensures WithinQuarter(JitteredWait(d, seed), d) {
        OffsetBounds(Fraction(seed), d as real);
        TruncWithin(Offset(Fraction(seed), d as real), d);
      }
    } else {
      var seed: nat := 999;
      assert Fraction(seed) == 0.998;
      assert Offset(0.998, d as real) == 0.2495 * d as real;
      TruncWithin(Offset(Fraction(seed), d as real), d);
      assert !WithinQuarter(JitteredWait(d, seed), d);
    }
  }

  /** acquireSlot: round after round, until a slot is got, a probe fails, or the context is cancelled after the
      last of them. `waits` are the waits between the rounds before jitter. */
  method AcquireSlot(key: nat -> int, start: nat, cap: nat, backoff: int, rounds: seq<Round>)
    returns (p: Probed, waits: seq<int>)
    requires start < cap && forall k | 0 <= k < |rounds| :: |rounds[k].busy| == cap
    ensures |waits| <= |rounds| && waits == Schedule(|waits|, backoff)
    ensures forall k | 0 <= k < |waits| :: Exhausts(key, start, cap, rounds[k])
    ensures p.AllTaken? <==> |waits| == |rounds|
    ensures |waits| < |rounds| ==> !Exhausts(key, start, cap, rounds[|waits|])
    ensures p.Got? ==> |waits| < |rounds| && FoundIn(key, start, cap, rounds[|waits|], p.slot)
  {
    var wait := backoff;
    waits := [];
    for r := 0 to |rounds|
      invariant |waits| == r && wait == WaitAt(r, backoff)
      invariant waits == Schedule(r, backoff)
      invariant forall k | 0 <= k < r :: Exhausts(key, start, cap, rounds[k])
    {
      ghost var visit;
      p, visit := ProbeRound(key, start, cap, rounds[r]);
      if !p.AllTaken? {
        return;
      }
      waits := waits + [wait];
      wait := NextBackoff(wait, backoff);
    }
    p := AllTaken;
  }
}
