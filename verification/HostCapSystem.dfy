/** Any number of sessions sending through the cap at once. */
module HostCapSystem {
  import opened Common
  import opened HostCap

  /** A session advisory lock: its holder, and how often the holder took it. */
  datatype Lock = Lock(owner: nat, depth: nat)

  datatype Send =
    | Probing(host: string, start: nat, i: nat)
    | Waiting(host: string, start: nat)
    | Sending(host: string, slot: nat)
    | Orphaned(host: string)              // still sending, but its session is gone and its locks with it

  /** The sends by the session they run on; a session runs one at a time. */
  datatype Sys = Sys(locks: map<int, Lock>, sends: map<nat, Send>)

  datatype Label =
    | Begin(session: nat, host: string, start: nat)
    | Probe(session: nat)
    | Retry(session: nat)
    | GiveUp(session: nat)
    | Finish(session: nat, unlocked: bool)   // the unlock's own error is ignored
    | Drop(session: nat)                     // the database connection is lost

  predicate Enabled(s: Sys, cap: nat, l: Label) {
    match l
    case Begin(x, _, start) => x !in s.sends && start < cap
    case Probe(x) => x in s.sends && s.sends[x].Probing? && s.sends[x].i < cap
    case Retry(x) => x in s.sends && s.sends[x].Waiting?
    case GiveUp(x) => x in s.sends && (s.sends[x].Probing? || s.sends[x].Waiting?)
    case Finish(x, _) => x in s.sends && (s.sends[x].Sending? || s.sends[x].Orphaned?)
    case Drop(x) => x in s.sends && !s.sends[x].Orphaned?
  }

  /** pg_try_advisory_lock: succeeds on a free key, and again on a key the session already holds. */
  predicate Obtainable(locks: map<int, Lock>, key: int, x: nat) {
    key !in locks || locks[key].owner == x
  }

  function Obtain(locks: map<int, Lock>, key: int, x: nat): map<int, Lock> {
    locks[key := Lock(x, if key in locks then locks[key].depth + 1 else 1)]
  }

  /** pg_advisory_unlock: one level of the session's own lock. */
  function Relinquish(locks: map<int, Lock>, key: int, x: nat): map<int, Lock> {
    if key !in locks || locks[key].owner != x then locks
    else if locks[key].depth <= 1 then locks - {key}
    else locks[key := Lock(x, locks[key].depth - 1)]
  }

  function StepProbe(hash: string -> int, s: Sys, cap: nat, x: nat): Sys
    requires x in s.sends && s.sends[x].Probing? && cap > 0
  {
    var Probing(host, start, i) := s.sends[x];
    var slot := ProbeSlot(start, i, cap);
    var key := LockKey(hash, host, slot);
    if Obtainable(s.locks, key, x) then
      Sys(Obtain(s.locks, key, x), s.sends[x := Sending(host, slot)])
    else
      s.(sends := s.sends[x := if i + 1 < cap then Probing(host, start, i + 1) else Waiting(host, start)])
  }

  function Next(hash: string -> int, s: Sys, cap: nat, l: Label): Sys
    requires Enabled(s, cap, l) && cap > 0
  {
    match l
    case Begin(x, host, start) => s.(sends := s.sends[x := Probing(host, start, 0)])
    case Probe(x) => StepProbe(hash, s, cap, x)
    case Retry(x) => s.(sends := s.sends[x := Probing(s.sends[x].host, s.sends[x].start, 0)])
    case GiveUp(x) => s.(sends := s.sends - {x})
    case Finish(x, unlocked) =>
      Sys(if unlocked && s.sends[x].Sending?
          then Relinquish(s.locks, LockKey(hash, s.sends[x].host, s.sends[x].slot), x) else s.locks,
          s.sends - {x})
    case Drop(x) =>
      Sys(map k | k in s.locks && s.locks[k].owner != x :: s.locks[k],
          if s.sends[x].Sending? then s.sends[x := Orphaned(s.sends[x].host)] else s.sends - {x})
  }

  ghost predicate Run(hash: string -> int, s: Sys, cap: nat, ls: seq<Label>)
    requires cap > 0
    decreases |ls|
  {
    |ls| > 0 ==> Enabled(s, cap, ls[0]) && Run(hash, Next(hash, s, cap, ls[0]), cap, ls[1..])
  }

  ghost function Exec(hash: string -> int, s: Sys, cap: nat, ls: seq<Label>): Sys
    requires cap > 0 && Run(hash, s, cap, ls)
    decreases |ls|
  {
    if |ls| == 0 then s else Exec(hash, Next(hash, s, cap, ls[0]), cap, ls[1..])
  }

  /** A send under the cap holds the lock of its slot. */
  ghost predicate Inv(hash: string -> int, s: Sys, cap: nat) {
    forall x | x in s.sends && s.sends[x].Sending? ::
      var key := LockKey(hash, s.sends[x].host, s.sends[x].slot);
      s.sends[x].slot < cap && key in s.locks && s.locks[key].owner == x
  }

  /** The sessions sending to the host under the cap. */
  ghost function InFlight(s: Sys, host: string): set<nat> {
    set x | x in s.sends && s.sends[x].Sending? && s.sends[x].host == host
  }

  ghost function Orphans(s: Sys, host: string): set<nat> {
    set x | x in s.sends && s.sends[x].Orphaned? && s.sends[x].host == host
  }

  lemma StepKeepsInv(hash: string -> int, s: Sys, cap: nat, l: Label)
    requires cap > 0 && Inv(hash, s, cap) && Enabled(s, cap, l)
    ensures Inv(hash, Next(hash, s, cap, l), cap)
  {
  }

  lemma {:induction false} RunKeepsInv(hash: string -> int, s: Sys, cap: nat, ls: seq<Label>)
    requires cap > 0 && Inv(hash, s, cap) && Run(hash, s, cap, ls)
    ensures Inv(hash, Exec(hash, s, cap, ls), cap)
    decreases |ls|
  {
    if |ls| == 0 {
    } else {
      StepKeepsInv(hash, s, cap, ls[0]);
      RunKeepsInv(hash, Next(hash, s, cap, ls[0]), cap, ls[1..]);
    }
  }

  /** The lock keys of the host's slots; fewer than the slots if some of their hashes collide. */
  ghost function SlotKeys(hash: string -> int, host: string, cap: nat): (keys: set<int>)
    ensures |keys| <= cap && forall slot: nat | slot < cap :: LockKey(hash, host, slot) in keys
  {
    if cap == 0 then {} else SlotKeys(hash, host, cap - 1) + {LockKey(hash, host, cap - 1)}
  }

  lemma KeysDistinct(hash: string -> int, s: Sys, cap: nat, host: string)
    requires cap > 0 && Inv(hash, s, cap)
    ensures |InFlight(s, host)| <= |SlotKeys(hash, host, cap)|
  {
    var keyOf := (x: nat) => if x in s.sends && s.sends[x].Sending? then LockKey(hash, host, s.sends[x].slot) else 0;
    InjectionBound(InFlight(s, host), keyOf, SlotKeys(hash, host, cap));
  }

  /** Whatever the hash, and whatever unlocks fail: the sends to a host whose sessions are alive never
      exceed the distinct keys of its slots, and so the cap, in any run. */
  lemma CapHolds(hash: string -> int, s: Sys, cap: nat, ls: seq<Label>, host: string)
    requires cap > 0 && s == Sys(map[], map[]) && Run(hash, s, cap, ls)
    ensures |InFlight(Exec(hash, s, cap, ls), host)| <= |SlotKeys(hash, host, cap)| <= cap
  {
    RunKeepsInv(hash, s, cap, ls);
    KeysDistinct(hash, Exec(hash, s, cap, ls), cap, host);
  }

  /** No session is lost while it is sending. */
  ghost predicate NoSendLost(hash: string -> int, s: Sys, cap: nat, ls: seq<Label>)
    requires cap > 0 && Run(hash, s, cap, ls)
    decreases |ls|
  {
    |ls| > 0 ==>
      && (ls[0].Drop? ==> !s.sends[ls[0].session].Sending?)
      && NoSendLost(hash, Next(hash, s, cap, ls[0]), cap, ls[1..])
  }

  lemma {:induction false} NoOrphans(hash: string -> int, s: Sys, cap: nat, ls: seq<Label>, host: string)
    requires cap > 0 && Run(hash, s, cap, ls) && Orphans(s, host) == {} && NoSendLost(hash, s, cap, ls)
    ensures Orphans(Exec(hash, s, cap, ls), host) == {}
    decreases |ls|
  {
    if |ls| == 0 {
    } else {
      var s' := Next(hash, s, cap, ls[0]);
      assert Orphans(s', host) == {} by {
        forall x | x in Orphans(s', host) ensures x in Orphans(s, host) {
        }
      }
      NoOrphans(hash, s', cap, ls[1..], host);
    }
  }

  /** As long as no session is lost while sending, these are all the sends to the host. */
  lemma CapHoldsForAll(hash: string -> int, s: Sys, cap: nat, ls: seq<Label>, host: string)
    requires cap > 0 && s == Sys(map[], map[]) && Run(hash, s, cap, ls) && NoSendLost(hash, s, cap, ls)
    ensures Orphans(Exec(hash, s, cap, ls), host) == {} && |InFlight(Exec(hash, s, cap, ls), host)| <= cap
  {
    CapHolds(hash, s, cap, ls, host);
    NoOrphans(hash, s, cap, ls, host);
  }
}
