/** The caps of different hosts do not interfere: a send waits only for sends to its own host. */
module HostCapHosts {
  import opened Common
  import opened HostCap
  import opened HostCapSystem
  import opened HostCapRounds

  /** The hash keeps the names of slots apart. */
  ghost predicate NamesApart(hash: string -> int) {
    forall h: string, a: nat, k: string, b: nat ::
      LockKey(hash, h, a) == LockKey(hash, k, b) ==> SlotKey(h, a) == SlotKey(k, b)
  }

  lemma KeyIsOwn(hash: string -> int, h: string, a: nat, k: string, b: nat)
    requires NamesApart(hash) && LockKey(hash, h, a) == LockKey(hash, k, b)
    ensures h == k && a == b
  {
    SlotKeyInjective(h, a, k, b);
  }

  /** An unlock after a send to the host does not fail. */
  predicate Unlocks(s: Sys, l: Label, host: string) {
    l.Finish? && l.session in s.sends && s.sends[l.session].Sending? && s.sends[l.session].host == host ==> l.unlocked
  }

  ghost predicate AllUnlock(hash: string -> int, s: Sys, cap: nat, ls: seq<Label>, host: string)
    requires cap > 0 && Run(hash, s, cap, ls)
    decreases |ls|
  {
    |ls| > 0 ==> Unlocks(s, ls[0], host) && AllUnlock(hash, Next(hash, s, cap, ls[0]), cap, ls[1..], host)
  }

  /** The lock of a slot of the host is held, once, by a session that is sending to the host in that slot. */
  predicate HeldToSend(hash: string -> int, s: Sys, host: string, slot: nat) {
    var key := LockKey(hash, host, slot);
    key in s.locks ==>
      var y := s.locks[key].owner;
      y in s.sends && s.sends[y] == Sending(host, slot) && s.locks[key].depth == 1
  }

  ghost predicate HostHeld(hash: string -> int, s: Sys, host: string) {
    forall slot: nat :: HeldToSend(hash, s, host, slot)
  }

  lemma ProbeKeepsHeld(hash: string -> int, s: Sys, cap: nat, x: nat, host: string, slot: nat)
    requires cap > 0 && NamesApart(hash) && HeldToSend(hash, s, host, slot) && Enabled(s, cap, Probe(x))
    ensures HeldToSend(hash, Next(hash, s, cap, Probe(x)), host, slot)
  {
    var p := s.sends[x];
    var tried := ProbeSlot(p.start, p.i, cap);
    if LockKey(hash, p.host, tried) == LockKey(hash, host, slot) {
      KeyIsOwn(hash, p.host, tried, host, slot);
    }
  }

  lemma FinishKeepsHeld(hash: string -> int, s: Sys, cap: nat, x: nat, unlocked: bool, host: string, slot: nat)
    requires cap > 0 && NamesApart(hash) && HeldToSend(hash, s, host, slot)
    requires Enabled(s, cap, Finish(x, unlocked)) && Unlocks(s, Finish(x, unlocked), host)
    ensures HeldToSend(hash, Next(hash, s, cap, Finish(x, unlocked)), host, slot)
  {
    if s.sends[x].Sending? && LockKey(hash, s.sends[x].host, s.sends[x].slot) == LockKey(hash, host, slot) {
      KeyIsOwn(hash, s.sends[x].host, s.sends[x].slot, host, slot);
    }
  }

  /** Whatever a session does for any host, the locks of this host are those of the sends to it. */
  lemma StepKeepsHeld(hash: string -> int, s: Sys, cap: nat, l: Label, host: string)
    requires cap > 0 && NamesApart(hash) && HostHeld(hash, s, host) && Enabled(s, cap, l) && Unlocks(s, l, host)
    ensures HostHeld(hash, Next(hash, s, cap, l), host)
  {
    forall slot: nat ensures HeldToSend(hash, Next(hash, s, cap, l), host, slot) {
      assert HeldToSend(hash, s, host, slot);
      match l {
        case Probe(x) => ProbeKeepsHeld(hash, s, cap, x, host, slot);
        case Finish(x, unlocked) => FinishKeepsHeld(hash, s, cap, x, unlocked, host, slot);
        case _ =>
      }
    }
  }

  lemma {:induction false} RunKeepsHeld(hash: string -> int, s: Sys, cap: nat, ls: seq<Label>, host: string)
    requires cap > 0 && NamesApart(hash) && HostHeld(hash, s, host) && Run(hash, s, cap, ls)
    requires AllUnlock(hash, s, cap, ls, host)
    ensures HostHeld(hash, Exec(hash, s, cap, ls), host)
    decreases |ls|
  {
    if |ls| == 0 {
    } else {
      StepKeepsHeld(hash, s, cap, ls[0], host);
      RunKeepsHeld(hash, Next(hash, s, cap, ls[0]), cap, ls[1..], host);
    }
  }

  // ---- a round -------------------------------------------------------------------------------

  /** The states in which x's probes were made, one by one. */
  ghost function Moments(hash: string -> int, s: Sys, cap: nat, ls: seq<Label>, x: nat): seq<Sys>
    requires cap > 0 && Run(hash, s, cap, ls)
    decreases |ls|
  {
    if |ls| == 0 then []
    else (if ls[0] == Probe(x) then [s] else []) + Moments(hash, Next(hash, s, cap, ls[0]), cap, ls[1..], x)
  }

  lemma {:induction false} MomentsMet(hash: string -> int, s: Sys, cap: nat, ls: seq<Label>, x: nat)
    requires cap > 0 && Run(hash, s, cap, ls)
    ensures |Moments(hash, s, cap, ls, x)| == |Met(hash, s, cap, ls, x)|
    decreases |ls|
  {
    if |ls| == 0 {
    } else {
      MomentsMet(hash, Next(hash, s, cap, ls[0]), cap, ls[1..], x);
    }
  }

  predicate InSlot(s: Sys, host: string, slot: nat) {
    exists y | y in s.sends :: s.sends[y] == Sending(host, slot)
  }

  /** A moment of the round: its lock table, and what the locks of the host mean then. */
  ghost predicate Clear(hash: string -> int, s: Sys, cap: nat, host: string, x: nat) {
    Inv(hash, s, cap) && HostHeld(hash, s, host) && x in s.sends && s.sends[x].Probing?
  }

  lemma {:induction false} MomentsClear(hash: string -> int, s: Sys, cap: nat, ls: seq<Label>, host: string, x: nat)
    requires cap > 0 && NamesApart(hash) && HostHeld(hash, s, host) && Inv(hash, s, cap) && Run(hash, s, cap, ls)
    requires AllUnlock(hash, s, cap, ls, host)
    ensures var moments, met := Moments(hash, s, cap, ls, x), Met(hash, s, cap, ls, x);
            && |moments| == |met|
            && forall i | 0 <= i < |met| :: met[i] == moments[i].locks && Clear(hash, moments[i], cap, host, x)
    decreases |ls|
  {
    if |ls| == 0 {
    } else {
      StepKeepsHeld(hash, s, cap, ls[0], host);
      StepKeepsInv(hash, s, cap, ls[0]);
      MomentsClear(hash, Next(hash, s, cap, ls[0]), cap, ls[1..], host, x);
    }
  }

  lemma TakenMeansInSlot(hash: string -> int, s: Sys, cap: nat, host: string, start: nat, i: nat, x: nat)
    requires cap > 0 && Clear(hash, s, cap, host, x)
    ensures Taken(hash, s.locks, host, start, i, cap, x) <==> InSlot(s, host, ProbeSlot(start, i, cap))
  {
    assert HeldToSend(hash, s, host, ProbeSlot(start, i, cap));
  }

  /** From the empty table, where unlocks after sends to the host do not fail: a round to the host ends waiting if
      and only if at each of its probes another session was sending to this very host in the slot probed,
      whatever goes on at other hosts. */
  lemma OnlyOwnHostBlocks(hash: string -> int, before: seq<Label>, cap: nat, ls: seq<Label>, x: nat)
    requires cap > 0 && NamesApart(hash) && Run(hash, Sys(map[], map[]), cap, before)
    requires var s := Exec(hash, Sys(map[], map[]), cap, before);
             && Run(hash, s, cap, ls) && OnlyProbes(ls, x)
             && x in s.sends && s.sends[x].Probing? && s.sends[x].i == 0
             && AllUnlock(hash, Sys(map[], map[]), cap, before, s.sends[x].host)
             && AllUnlock(hash, s, cap, ls, s.sends[x].host)
    ensures var s := Exec(hash, Sys(map[], map[]), cap, before);
            var p, moments := s.sends[x], Moments(hash, s, cap, ls, x);
            && x in Exec(hash, s, cap, ls).sends
            && (Exec(hash, s, cap, ls).sends[x].Waiting? <==>
                |moments| >= cap && forall i | 0 <= i < cap :: InSlot(moments[i], p.host, ProbeSlot(p.start, i, cap)))
  {
    var s := Exec(hash, Sys(map[], map[]), cap, before);
    var p, moments, met := s.sends[x], Moments(hash, s, cap, ls, x), Met(hash, s, cap, ls, x);
    RunKeepsHeld(hash, Sys(map[], map[]), cap, before, p.host);
    RunKeepsInv(hash, Sys(map[], map[]), cap, before);
    MomentsClear(hash, s, cap, ls, p.host, x);
    RoundFailsIff(hash, s, cap, ls, x);
    forall i | 0 <= i < cap && i < |met|
      ensures Taken(hash, met[i], p.host, p.start, i, cap, x) <==>
              InSlot(moments[i], p.host, ProbeSlot(p.start, i, cap))
    {
      TakenMeansInSlot(hash, moments[i], cap, p.host, p.start, i, x);
    }
  }

  /** Somebody was sending to the host in the slot at one of the moments. */
  ghost predicate Used(moments: seq<Sys>, host: string, slot: nat) {
    exists i :: 0 <= i < |moments| && InSlot(moments[i], host, slot)
  }

  ghost function SlotsUsed(moments: seq<Sys>, host: string, cap: nat): set<nat> {
    set slot: nat | slot < cap && Used(moments, host, slot)
  }

  /** A round of cap probes is over. */
  lemma RoundIsOver(hash: string -> int, s: Sys, cap: nat, ls: seq<Label>, x: nat)
    requires cap > 0 && Run(hash, s, cap, ls) && OnlyProbes(ls, x)
    requires x in s.sends && s.sends[x].Probing? && s.sends[x].i == 0
    ensures var s' := Exec(hash, s, cap, ls);
            x in s'.sends && (s'.sends[x].Probing? ==> |Met(hash, s, cap, ls, x)| < cap)
  {
    var met := Met(hash, s, cap, ls, x);
    var busy := seq(cap, i requires 0 <= i < cap => if i < |met| then HeldByOthers(met[i], x) else {});
    LoopAgrees(hash, s, cap, ls, x, Round(busy, None));
  }

  /** With fewer than cap slots of the host used throughout the round, it ends sending, if it ends. */
  lemma FreeSlotOfHostWins(hash: string -> int, before: seq<Label>, cap: nat, ls: seq<Label>, x: nat)
    requires cap > 0 && NamesApart(hash) && Run(hash, Sys(map[], map[]), cap, before)
    requires var s := Exec(hash, Sys(map[], map[]), cap, before);
             && Run(hash, s, cap, ls) && OnlyProbes(ls, x)
             && x in s.sends && s.sends[x].Probing? && s.sends[x].i == 0 && s.sends[x].start < cap
             && AllUnlock(hash, Sys(map[], map[]), cap, before, s.sends[x].host)
             && AllUnlock(hash, s, cap, ls, s.sends[x].host)
             && |SlotsUsed(Moments(hash, s, cap, ls, x), s.sends[x].host, cap)| < cap
    ensures var s := Exec(hash, Sys(map[], map[]), cap, before);
            var s' := Exec(hash, s, cap, ls);
            && x in s'.sends
            && (s'.sends[x].Sending? || (s'.sends[x].Probing? && |Moments(hash, s, cap, ls, x)| < cap))
  {
    var s := Exec(hash, Sys(map[], map[]), cap, before);
    var p, moments := s.sends[x], Moments(hash, s, cap, ls, x);
    OnlyOwnHostBlocks(hash, before, cap, ls, x);
    RoundFailsIff(hash, s, cap, ls, x);
    RoundIsOver(hash, s, cap, ls, x);
    MomentsMet(hash, s, cap, ls, x);
    var slot := UnusedSlot(SlotsUsed(moments, p.host, cap), cap);
    var i := ProbeVisitsOnce(p.start, cap, slot);
    if |moments| >= cap {
      assert !InSlot(moments[i], p.host, slot);
    }
  }

  lemma UnusedSlot(used: set<nat>, cap: nat) returns (slot: nat)
    requires |used| < cap
    ensures slot < cap && slot !in used
  {
    if UpTo(cap) <= used {
      SubsetCardinality(UpTo(cap), used);
      assert false;
    }
    slot :| slot in UpTo(cap) && slot !in used;
  }
}
