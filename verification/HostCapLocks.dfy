/** Who holds which lock: a session that is sending under it, or that failed to unlock it. */
module HostCapLocks {
  import opened Common
  import opened HostCap
  import opened HostCapSystem

  /** The session is sending under the key. */
  predicate SendsUnder(hash: string -> int, s: Sys, y: nat, key: int) {
    y in s.sends && s.sends[y].Sending? && LockKey(hash, s.sends[y].host, s.sends[y].slot) == key
  }

  /** How many unlocks of the key failed in the session's life, counted on from n. */
  function StuckAfter(hash: string -> int, s: Sys, l: Label, y: nat, key: int, n: nat): nat {
    if l == Drop(y) then 0
    else if l == Finish(y, false) && SendsUnder(hash, s, y, key) then n + 1
    else n
  }

  ghost function Stuck(hash: string -> int, s: Sys, cap: nat, ls: seq<Label>, y: nat, key: int, n: nat): nat
    requires cap > 0 && Run(hash, s, cap, ls)
    decreases |ls|
  {
    if |ls| == 0 then n
    else Stuck(hash, Next(hash, s, cap, ls[0]), cap, ls[1..], y, key, StuckAfter(hash, s, ls[0], y, key, n))
  }

  /** How often the session holds the key. */
  function Depth(s: Sys, y: nat, key: int): nat {
    if key in s.locks && s.locks[key].owner == y then s.locks[key].depth else 0
  }

  ghost predicate DepthOk(hash: string -> int, s: Sys, y: nat, key: int, n: nat) {
    && Depth(s, y, key) == n + (if SendsUnder(hash, s, y, key) then 1 else 0)
    && (key in s.locks ==> s.locks[key].depth >= 1)
  }

  lemma StepKeepsDepth(hash: string -> int, s: Sys, cap: nat, l: Label, y: nat, key: int, n: nat)
    requires cap > 0 && Enabled(s, cap, l) && DepthOk(hash, s, y, key, n)
    ensures DepthOk(hash, Next(hash, s, cap, l), y, key, StuckAfter(hash, s, l, y, key, n))
  {
  }

  lemma {:induction false} RunKeepsDepth(hash: string -> int, s: Sys, cap: nat, ls: seq<Label>, y: nat, key: int,
                                         n: nat)
    requires cap > 0 && Run(hash, s, cap, ls) && DepthOk(hash, s, y, key, n)
    ensures DepthOk(hash, Exec(hash, s, cap, ls), y, key, Stuck(hash, s, cap, ls, y, key, n))
    decreases |ls|
  {
    if |ls| == 0 {
    } else {
      StepKeepsDepth(hash, s, cap, ls[0], y, key, n);
      RunKeepsDepth(hash, Next(hash, s, cap, ls[0]), cap, ls[1..], y, key, StuckAfter(hash, s, ls[0], y, key, n));
    }
  }

  /** In every run, whatever the hash, a session holds a lock as often as it failed to unlock it since it was last
      lost, and once more while it sends under it. So a failed unlock leaves the slot taken until the session is
      lost, however often it is used again. */
  lemma LocksAccounted(hash: string -> int, cap: nat, ls: seq<Label>, y: nat, key: int)
    requires cap > 0 && Run(hash, Sys(map[], map[]), cap, ls)
    ensures var s, stuck := Exec(hash, Sys(map[], map[]), cap, ls), Stuck(hash, Sys(map[], map[]), cap, ls, y, key, 0);
            && Depth(s, y, key) == stuck + (if SendsUnder(hash, s, y, key) then 1 else 0)
            && (key in s.locks && s.locks[key].owner == y <==> SendsUnder(hash, s, y, key) || stuck > 0)
  {
    RunKeepsDepth(hash, Sys(map[], map[]), cap, ls, y, key, 0);
  }

  lemma Then(hash: string -> int, s: Sys, cap: nat, l: Label, ls: seq<Label>)
    requires cap > 0 && Enabled(s, cap, l) && Run(hash, Next(hash, s, cap, l), cap, ls)
    ensures Run(hash, s, cap, [l] + ls) && Exec(hash, s, cap, [l] + ls) == Exec(hash, Next(hash, s, cap, l), cap, ls)
  {
    assert ([l] + ls)[1..] == ls;
  }

  /** One send whose unlock fails: nobody is sending any more, and the slot is taken. */
  lemma FailedUnlockLeaks(hash: string -> int, cap: nat, host: string) returns (ls: seq<Label>)
    requires cap > 0
    ensures Run(hash, Sys(map[], map[]), cap, ls)
    ensures var s := Exec(hash, Sys(map[], map[]), cap, ls); |s.sends| == 0 && LockKey(hash, host, 0) in s.locks
  {
    var s0 := Sys(map[], map[]);
    var s1 := Next(hash, s0, cap, Begin(1, host, 0));
    var s2 := Next(hash, s1, cap, Probe(1));
    var s3 := Next(hash, s2, cap, Finish(1, false));
    DivUnique(0, cap, 0, 0);
    assert s2.sends == map[1 := Sending(host, 0)] && s3.sends == map[];
    Then(hash, s2, cap, Finish(1, false), []);
    Then(hash, s1, cap, Probe(1), [Finish(1, false)] + []);
    Then(hash, s0, cap, Begin(1, host, 0), [Probe(1)] + ([Finish(1, false)] + []));
    ls := [Begin(1, host, 0)] + ([Probe(1)] + ([Finish(1, false)] + []));
  }
}
