/** What a round of probes finds while other sessions lock and unlock between its statements. */
module HostCapRounds {
  import opened Common
  import opened HostCap
  import opened HostCapSystem

  /** A stretch of a run in which session x does nothing but probe. */
  predicate OnlyProbes(ls: seq<Label>, x: nat) {
    forall l | l in ls :: l.session == x ==> l.Probe?
  }

  /** The lock tables that x's probes met, one by one. */
  ghost function Met(hash: string -> int, s: Sys, cap: nat, ls: seq<Label>, x: nat): seq<map<int, Lock>>
    requires cap > 0 && Run(hash, s, cap, ls)
    decreases |ls|
  {
    if |ls| == 0 then []
    else (if ls[0] == Probe(x) then [s.locks] else []) + Met(hash, Next(hash, s, cap, ls[0]), cap, ls[1..], x)
  }

  /** Slot i of the probe order was taken by another session in that table. */
  predicate Taken(hash: string -> int, locks: map<int, Lock>, host: string, start: nat, i: nat, cap: nat, x: nat)
    requires cap > 0
  {
    !Obtainable(locks, LockKey(hash, host, ProbeSlot(start, i, cap)), x)
  }

  lemma {:induction false} Settled(hash: string -> int, s: Sys, cap: nat, ls: seq<Label>, x: nat)
    requires cap > 0 && Run(hash, s, cap, ls) && OnlyProbes(ls, x) && x in s.sends && !s.sends[x].Probing?
    ensures var s' := Exec(hash, s, cap, ls); x in s'.sends && s'.sends[x] == s.sends[x]
    ensures Met(hash, s, cap, ls, x) == []
    decreases |ls|
  {
    if |ls| == 0 {
    } else {
      assert ls[0] in ls;
      Settled(hash, Next(hash, s, cap, ls[0]), cap, ls[1..], x);
    }
  }

  /** Where probes that meet these tables, one after another, leave a send. */
  ghost function RoundEnd(hash: string -> int, p: Send, met: seq<map<int, Lock>>, cap: nat, x: nat): Send
    requires cap > 0
    decreases |met|
  {
    if |met| == 0 || !p.Probing? then p
    else if Taken(hash, met[0], p.host, p.start, p.i, cap, x) then
      RoundEnd(hash, if p.i + 1 < cap then Probing(p.host, p.start, p.i + 1) else Waiting(p.host, p.start), met[1..],
               cap, x)
    else Sending(p.host, ProbeSlot(p.start, p.i, cap))
  }

  lemma StepMoves(hash: string -> int, s: Sys, cap: nat, l: Label, x: nat, rest: seq<map<int, Lock>>)
    requires cap > 0 && Enabled(s, cap, l) && x in s.sends && s.sends[x].Probing? && (l.session == x ==> l.Probe?)
    ensures x in Next(hash, s, cap, l).sends
    ensures RoundEnd(hash, s.sends[x], (if l == Probe(x) then [s.locks] else []) + rest, cap, x)
            == RoundEnd(hash, Next(hash, s, cap, l).sends[x], rest, cap, x)
  {
    assert ([s.locks] + rest)[1..] == rest && [] + rest == rest;
  }

  lemma {:induction false} RoundSoFar(hash: string -> int, s: Sys, cap: nat, ls: seq<Label>, x: nat)
    requires cap > 0 && Run(hash, s, cap, ls) && OnlyProbes(ls, x) && x in s.sends && s.sends[x].Probing?
    ensures var s' := Exec(hash, s, cap, ls);
            x in s'.sends && s'.sends[x] == RoundEnd(hash, s.sends[x], Met(hash, s, cap, ls, x), cap, x)
    decreases |ls|
  {
    if |ls| == 0 {
    } else {
      assert ls[0] in ls;
      var s1 := Next(hash, s, cap, ls[0]);
      StepMoves(hash, s, cap, ls[0], x, Met(hash, s1, cap, ls[1..], x));
      if s1.sends[x].Probing? {
        RoundSoFar(hash, s1, cap, ls[1..], x);
      } else {
        Settled(hash, s1, cap, ls[1..], x);
      }
    }
  }

  /** The probes from position i on all met a taken slot. */
  ghost predicate AllTaken(hash: string -> int, met: seq<map<int, Lock>>, host: string, start: nat, i: nat, cap: nat,
                           x: nat)
    requires cap > 0
    decreases |met|
  {
    i >= cap || (|met| > 0 && Taken(hash, met[0], host, start, i, cap, x)
                 && AllTaken(hash, met[1..], host, start, i + 1, cap, x))
  }

  lemma {:induction false} EndsWaiting(hash: string -> int, p: Send, met: seq<map<int, Lock>>, cap: nat, x: nat)
    requires p.Probing? && p.i < cap
    ensures RoundEnd(hash, p, met, cap, x).Waiting? <==> AllTaken(hash, met, p.host, p.start, p.i, cap, x)
    ensures !RoundEnd(hash, p, met, cap, x).Orphaned?
    decreases |met|
  {
    if |met| == 0 {
    } else if p.i + 1 < cap {
      EndsWaiting(hash, Probing(p.host, p.start, p.i + 1), met[1..], cap, x);
    }
  }

  ghost predicate TakenFrom(hash: string -> int, met: seq<map<int, Lock>>, host: string, start: nat, i: nat, cap: nat,
                            x: nat)
    requires cap > 0
  {
    |met| >= cap - i && forall k | 0 <= k < cap - i :: Taken(hash, met[k], host, start, i + k, cap, x)
  }

  lemma TakenFromStep(hash: string -> int, met: seq<map<int, Lock>>, host: string, start: nat, i: nat, cap: nat, x: nat)
    requires i < cap && |met| > 0
    ensures TakenFrom(hash, met, host, start, i, cap, x) <==>
            Taken(hash, met[0], host, start, i, cap, x) && TakenFrom(hash, met[1..], host, start, i + 1, cap, x)
  {
    forall k | 0 < k < cap - i && k < |met| ensures met[k] == met[1..][k - 1] && i + k == i + 1 + (k - 1) {
    }
  }

  lemma {:induction false} AllTakenAt(hash: string -> int, met: seq<map<int, Lock>>, host: string, start: nat, i: nat,
                                      cap: nat, x: nat)
    requires i <= cap && cap > 0
    ensures AllTaken(hash, met, host, start, i, cap, x) <==> TakenFrom(hash, met, host, start, i, cap, x)
    decreases |met|
  {
    if i == cap {
    } else if |met| > 0 {
      AllTakenAt(hash, met[1..], host, start, i + 1, cap, x);
      TakenFromStep(hash, met, host, start, i, cap, x);
    }
  }

  /** A round ends waiting if and only if it made all its probes and each slot was taken when it was probed,
      whatever the other sessions did in between. */
  lemma RoundFailsIff(hash: string -> int, s: Sys, cap: nat, ls: seq<Label>, x: nat)
    requires cap > 0 && Run(hash, s, cap, ls) && OnlyProbes(ls, x)
    requires x in s.sends && s.sends[x].Probing? && s.sends[x].i == 0
    ensures var met, p := Met(hash, s, cap, ls, x), s.sends[x];
            && x in Exec(hash, s, cap, ls).sends
            && (Exec(hash, s, cap, ls).sends[x].Waiting? <==>
                |met| >= cap && forall i | 0 <= i < cap :: Taken(hash, met[i], p.host, p.start, i, cap, x))
            && !Exec(hash, s, cap, ls).sends[x].Orphaned?
  {
    RoundSoFar(hash, s, cap, ls, x);
    var met, p := Met(hash, s, cap, ls, x), s.sends[x];
    EndsWaiting(hash, p, met, cap, x);
    AllTakenAt(hash, met, p.host, p.start, 0, cap, x);
    assert forall i | 0 <= i < cap && i < |met| ::
        Taken(hash, met[i], p.host, p.start, i, cap, x) == Taken(hash, met[i], p.host, p.start, 0 + i, cap, x);
  }

  /** A round after a wait starts over: like the first one, it fails only when it finds every slot taken. */
  lemma EveryRoundIsWhole(hash: string -> int, s: Sys, cap: nat, l: Label, ls: seq<Label>, x: nat)
    requires cap > 0 && Enabled(s, cap, l) && l.session == x && (l.Begin? || l.Retry?)
    requires Run(hash, Next(hash, s, cap, l), cap, ls) && OnlyProbes(ls, x)
    ensures var s1 := Next(hash, s, cap, l);
            var met := Met(hash, s1, cap, ls, x);
            var host := if l.Begin? then l.host else s.sends[x].host;
            var start := if l.Begin? then l.start else s.sends[x].start;
            && x in Exec(hash, s1, cap, ls).sends
            && (Exec(hash, s1, cap, ls).sends[x].Waiting? <==>
                |met| >= cap && forall i | 0 <= i < cap :: Taken(hash, met[i], host, start, i, cap, x))
  {
    RoundFailsIff(hash, Next(hash, s, cap, l), cap, ls, x);
  }

  /** A slot that is obtainable at each of the probes keeps the round from failing: once it is over, the
      session is sending. */
  lemma SteadySlotWins(hash: string -> int, s: Sys, cap: nat, ls: seq<Label>, x: nat, slot: nat)
    requires cap > 0 && Run(hash, s, cap, ls) && OnlyProbes(ls, x)
    requires x in s.sends && s.sends[x].Probing? && s.sends[x].i == 0 && s.sends[x].start < cap && slot < cap
    requires forall locks | locks in Met(hash, s, cap, ls, x) ::
               Obtainable(locks, LockKey(hash, s.sends[x].host, slot), x)
    ensures var s' := Exec(hash, s, cap, ls); x in s'.sends && (s'.sends[x].Probing? || s'.sends[x].Sending?)
  {
    var met, p := Met(hash, s, cap, ls, x), s.sends[x];
    RoundFailsIff(hash, s, cap, ls, x);
    var i := ProbeVisitsOnce(p.start, cap, slot);
    if |met| >= cap {
      assert met[i] in met;
      assert !Taken(hash, met[i], p.host, p.start, i, cap, x);
    }
  }

  /** The keys other sessions hold. */
  function HeldByOthers(locks: map<int, Lock>, x: nat): set<int> {
    set k | k in locks && locks[k].owner != x
  }

  /** The loop's round from its i-th probe on meets what the session's probes met. */
  ghost predicate SameRound(r: Round, i: nat, met: seq<map<int, Lock>>, cap: nat, x: nat) {
    && r.failAt == None && |r.busy| == cap
    && forall k | 0 <= k < |met| && i + k < cap :: r.busy[i + k] == HeldByOthers(met[k], x)
  }

  /** Where a round that ends so leaves the send. */
  function Outcome(p: Probed, host: string, start: nat): Option<Send> {
    match p
    case Got(slot) => Some(Sending(host, slot))
    case AllTaken => Some(Waiting(host, start))
    case LockError => None
  }

  lemma SameRoundStep(r: Round, i: nat, met: seq<map<int, Lock>>, cap: nat, x: nat)
    requires SameRound(r, i, met, cap, x) && |met| > 0
    ensures SameRound(r, i + 1, met[1..], cap, x)
  {
    forall k | 0 <= k < |met[1..]| && i + 1 + k < cap ensures r.busy[i + 1 + k] == HeldByOthers(met[1..][k], x) {
      assert r.busy[i + (k + 1)] == HeldByOthers(met[k + 1], x);
    }
  }

  lemma {:induction false} EndsAlike(hash: string -> int, p: Send, met: seq<map<int, Lock>>, cap: nat, x: nat, r: Round)
    requires p.Probing? && p.i < cap && SameRound(r, p.i, met, cap, x)
    ensures var end := RoundEnd(hash, p, met, cap, x);
            var key := slot => LockKey(hash, p.host, slot);
            if end.Probing? then |met| < cap - p.i
            else Some(end) == Outcome(RoundFrom(key, p.start, cap, r, p.i), p.host, p.start)
    decreases |met|
  {
    var key := slot => LockKey(hash, p.host, slot);
    if |met| == 0 {
    } else {
      assert r.busy[p.i + 0] == HeldByOthers(met[0], x);
      assert Taken(hash, met[0], p.host, p.start, p.i, cap, x) <==> Refused(key, p.start, cap, r, p.i);
      if Taken(hash, met[0], p.host, p.start, p.i, cap, x) && p.i + 1 < cap {
        SameRoundStep(r, p.i, met, cap, x);
        EndsAlike(hash, Probing(p.host, p.start, p.i + 1), met[1..], cap, x, r);
      }
    }
  }

  /** The probing loop, on a round that meets what the session's probes met, ends as the session's round does:
      with the same slot, or with all slots taken. */
  lemma LoopAgrees(hash: string -> int, s: Sys, cap: nat, ls: seq<Label>, x: nat, r: Round)
    requires cap > 0 && Run(hash, s, cap, ls) && OnlyProbes(ls, x)
    requires x in s.sends && s.sends[x].Probing? && s.sends[x].i == 0
    requires SameRound(r, 0, Met(hash, s, cap, ls, x), cap, x)
    ensures var p, s' := s.sends[x], Exec(hash, s, cap, ls);
            var key := slot => LockKey(hash, p.host, slot);
            && x in s'.sends
            && if s'.sends[x].Probing? then |Met(hash, s, cap, ls, x)| < cap
               else Some(s'.sends[x]) == Outcome(RoundFrom(key, p.start, cap, r, 0), p.host, p.start)
  {
    RoundSoFar(hash, s, cap, ls, x);
    EndsAlike(hash, s.sends[x], Met(hash, s, cap, ls, x), cap, x, r);
  }

  // ---- a free slot at every moment is not enough --------------------------------------------------

  /** At every moment of the run some lock of the host is free: fewer than cap are held at all. */
  ghost predicate NeverFull(hash: string -> int, s: Sys, cap: nat, ls: seq<Label>)
    requires cap > 0 && Run(hash, s, cap, ls)
    decreases |ls|
  {
    |s.locks.Keys| < cap && (|ls| > 0 ==> NeverFull(hash, Next(hash, s, cap, ls[0]), cap, ls[1..]))
  }

  lemma Then(hash: string -> int, s: Sys, l: Label, ls: seq<Label>)
    requires Enabled(s, 2, l) && Run(hash, Next(hash, s, 2, l), 2, ls)
    requires |s.locks.Keys| < 2 && NeverFull(hash, Next(hash, s, 2, l), 2, ls)
    ensures Run(hash, s, 2, [l] + ls) && Exec(hash, s, 2, [l] + ls) == Exec(hash, Next(hash, s, 2, l), 2, ls)
    ensures NeverFull(hash, s, 2, [l] + ls)
  {
    assert ([l] + ls)[1..] == ls;
  }

  const OPENING: seq<Label> := [Begin(1, "h", 0)] + ([Probe(1)] + ([Begin(3, "h", 0)] + []))

  const MISSING: seq<Label> :=
    [Probe(3)] + ([Finish(1, true)] + ([Begin(2, "h", 1)] + ([Probe(2)] + ([Probe(3)] + []))))

  function SlotHeld(hash: string -> int): Sys {
    Sys(map[LockKey(hash, "h", 0) := Lock(1, 1)], map[1 := Sending("h", 0), 3 := Probing("h", 0, 0)])
  }

  lemma Opening(hash: string -> int)
    ensures var s := Sys(map[], map[]);
            && Run(hash, s, 2, OPENING) && NeverFull(hash, s, 2, OPENING)
            && Exec(hash, s, 2, OPENING) == SlotHeld(hash)
  {
    var s := Sys(map[], map[]);
    var s1 := Next(hash, s, 2, Begin(1, "h", 0));
    var s2 := Next(hash, s1, 2, Probe(1));
    var s3 := Next(hash, s2, 2, Begin(3, "h", 0));
    assert s2.locks == map[LockKey(hash, "h", 0) := Lock(1, 1)];
    assert s3 == SlotHeld(hash);
    assert s2.locks.Keys == {LockKey(hash, "h", 0)} && s1.locks == map[];
    Then(hash, s2, Begin(3, "h", 0), []);
    Then(hash, s1, Probe(1), [Begin(3, "h", 0)] + []);
    Then(hash, s, Begin(1, "h", 0), [Probe(1)] + ([Begin(3, "h", 0)] + []));
  }

  lemma Missing(hash: string -> int)
    requires LockKey(hash, "h", 0) != LockKey(hash, "h", 1)
    ensures var s := SlotHeld(hash);
            && Run(hash, s, 2, MISSING) && NeverFull(hash, s, 2, MISSING)
            && 3 in Exec(hash, s, 2, MISSING).sends && Exec(hash, s, 2, MISSING).sends[3].Waiting?
  {
    var k0, k1 := LockKey(hash, "h", 0), LockKey(hash, "h", 1);
    var s := SlotHeld(hash);
    var s1 := Next(hash, s, 2, Probe(3));
    var s2 := Next(hash, s1, 2, Finish(1, true));
    var s3 := Next(hash, s2, 2, Begin(2, "h", 1));
    var s4 := Next(hash, s3, 2, Probe(2));
    var s5 := Next(hash, s4, 2, Probe(3));
    assert s.locks.Keys == {k0} && s1.locks.Keys == {k0} && s2.locks == map[] && s3.locks == map[];
    assert s4.locks == map[k1 := Lock(2, 1)] && s5.locks == s4.locks;
    assert s4.locks.Keys == {k1};
    Then(hash, s4, Probe(3), []);
    Then(hash, s3, Probe(2), [Probe(3)] + []);
    Then(hash, s2, Begin(2, "h", 1), [Probe(2)] + ([Probe(3)] + []));
    Then(hash, s1, Finish(1, true), [Begin(2, "h", 1)] + ([Probe(2)] + ([Probe(3)] + [])));
    Then(hash, s, Probe(3), [Finish(1, true)] + ([Begin(2, "h", 1)] + ([Probe(2)] + ([Probe(3)] + []))));
  }

  lemma MissingProbes()
    ensures OnlyProbes(MISSING, 3)
  {
    assert MISSING == [Probe(3), Finish(1, true), Begin(2, "h", 1), Probe(2), Probe(3)];
  }

  /** Two slots with keys of their own. Session 1 holds slot 0 while session 3 probes it, and gives it up;
      session 2 takes slot 1, which session 3 probes next. Never more than one lock is held, and still the
      round of session 3 fails. */
  lemma MissingRound(hash: string -> int)
    requires LockKey(hash, "h", 0) != LockKey(hash, "h", 1)
    ensures var s0 := Sys(map[], map[]);
            && Run(hash, s0, 2, OPENING) && NeverFull(hash, s0, 2, OPENING)
            && var s := Exec(hash, s0, 2, OPENING);
               && 3 in s.sends && s.sends[3] == Probing("h", 0, 0) && OnlyProbes(MISSING, 3)
               && Run(hash, s, 2, MISSING) && NeverFull(hash, s, 2, MISSING)
               && 3 in Exec(hash, s, 2, MISSING).sends && Exec(hash, s, 2, MISSING).sends[3].Waiting?
  {
    Opening(hash);
    Missing(hash);
    MissingProbes();
  }
}
