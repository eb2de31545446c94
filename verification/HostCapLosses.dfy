/** How far lost sessions push the sends to a host over its cap. */
module HostCapLosses {
  import opened Common
  import opened HostCap
  import opened HostCapSystem

  /** The step loses a session that is sending to the host. */
  predicate Loses(s: Sys, l: Label, host: string) {
    l.Drop? && l.session in s.sends && s.sends[l.session].Sending? && s.sends[l.session].host == host
  }

  ghost function Losses(hash: string -> int, s: Sys, cap: nat, ls: seq<Label>, host: string): nat
    requires cap > 0 && Run(hash, s, cap, ls)
    decreases |ls|
  {
    if |ls| == 0 then 0
    else (if Loses(s, ls[0], host) then 1 else 0) + Losses(hash, Next(hash, s, cap, ls[0]), cap, ls[1..], host)
  }

  // ---- the bound ---------------------------------------------------------------------------------

  lemma StepOrphans(hash: string -> int, s: Sys, cap: nat, l: Label, host: string)
    requires cap > 0 && Enabled(s, cap, l)
    ensures |Orphans(Next(hash, s, cap, l), host)| <= |Orphans(s, host)| + (if Loses(s, l, host) then 1 else 0)
  {
    var s' := Next(hash, s, cap, l);
    if Loses(s, l, host) {
      SubsetCardinality(Orphans(s', host), Orphans(s, host) + {l.session});
    } else {
      SubsetCardinality(Orphans(s', host), Orphans(s, host));
    }
  }

  lemma {:induction false} OrphansBounded(hash: string -> int, s: Sys, cap: nat, ls: seq<Label>, host: string)
    requires cap > 0 && Run(hash, s, cap, ls)
    ensures |Orphans(Exec(hash, s, cap, ls), host)| <= |Orphans(s, host)| + Losses(hash, s, cap, ls, host)
    decreases |ls|
  {
    if |ls| == 0 {
    } else {
      StepOrphans(hash, s, cap, ls[0], host);
      OrphansBounded(hash, Next(hash, s, cap, ls[0]), cap, ls[1..], host);
    }
  }

  // ---- reaching it ---------------------------------------------------------------------------------

  /** One more step of a run from the start. */
  lemma {:induction false} Append(hash: string -> int, s: Sys, cap: nat, ls: seq<Label>, l: Label, host: string)
    requires cap > 0 && Run(hash, s, cap, ls) && Enabled(Exec(hash, s, cap, ls), cap, l)
    ensures Run(hash, s, cap, ls + [l])
    ensures Exec(hash, s, cap, ls + [l]) == Next(hash, Exec(hash, s, cap, ls), cap, l)
    ensures Losses(hash, s, cap, ls + [l], host)
            == Losses(hash, s, cap, ls, host) + (if Loses(Exec(hash, s, cap, ls), l, host) then 1 else 0)
    decreases |ls|
  {
    if |ls| == 0 {
      assert ls + [l] == [l];
    } else {
      Append(hash, Next(hash, s, cap, ls[0]), cap, ls[1..], l, host);
      assert (ls + [l])[1..] == ls[1..] + [l];
    }
  }

  /** The run leads from the start to the state, with that many losses. */
  ghost predicate Leads(hash: string -> int, cap: nat, host: string, ls: seq<Label>, s: Sys, losses: nat) {
    && cap > 0 && Run(hash, Sys(map[], map[]), cap, ls) && Exec(hash, Sys(map[], map[]), cap, ls) == s
    && Losses(hash, Sys(map[], map[]), cap, ls, host) == losses
  }

  lemma Extend(hash: string -> int, cap: nat, host: string, ls: seq<Label>, s: Sys, losses: nat, l: Label)
    returns (more: seq<Label>, s': Sys)
    requires Leads(hash, cap, host, ls, s, losses) && Enabled(s, cap, l)
    ensures s' == Next(hash, s, cap, l)
    ensures Leads(hash, cap, host, more, s', losses + if Loses(s, l, host) then 1 else 0)
  {
    more, s' := ls + [l], Next(hash, s, cap, l);
    Append(hash, Sys(map[], map[]), cap, ls, l, host);
  }

  /** A new session takes a slot whose key is free. */
  lemma TakeSlot(hash: string -> int, cap: nat, host: string, ls: seq<Label>, s: Sys, losses: nat, x: nat, slot: nat)
    returns (more: seq<Label>, s': Sys)
    requires Leads(hash, cap, host, ls, s, losses) && x !in s.sends && slot < cap
    requires LockKey(hash, host, slot) !in s.locks
    ensures Leads(hash, cap, host, more, s', losses)
    ensures s' == Sys(s.locks[LockKey(hash, host, slot) := Lock(x, 1)], s.sends[x := Sending(host, slot)])
  {
    var begun;
    more, begun := Extend(hash, cap, host, ls, s, losses, Begin(x, host, slot));
    DivUnique(slot, cap, 0, slot);
    more, s' := Extend(hash, cap, host, more, begun, losses, Probe(x));
    assert s'.sends == s.sends[x := Sending(host, slot)];
  }

  /** The first n sessions were lost, each while sending, and nothing else goes on. */
  ghost predicate AllLost(s: Sys, host: string, n: nat) {
    && (forall k :: k !in s.locks) && (forall x: nat :: x in s.sends <==> x < n)
    && forall x | x in s.sends :: s.sends[x] == Orphaned(host)
  }

  lemma OneMoreLost(hash: string -> int, cap: nat, s: Sys, host: string, n: nat, key: int)
    requires cap > 0 && AllLost(s, host, n)
    ensures var holding := Sys(s.locks[key := Lock(n, 1)], s.sends[n := Sending(host, 0)]);
            AllLost(Next(hash, holding, cap, Drop(n)), host, n + 1)
  {
  }

  lemma LoseOne(hash: string -> int, cap: nat, host: string, ls: seq<Label>, s: Sys, n: nat)
    returns (more: seq<Label>, s': Sys)
    requires Leads(hash, cap, host, ls, s, n) && AllLost(s, host, n)
    ensures Leads(hash, cap, host, more, s', n + 1) && AllLost(s', host, n + 1)
  {
    var holding;
    more, holding := TakeSlot(hash, cap, host, ls, s, n, n, 0);
    more, s' := Extend(hash, cap, host, more, holding, n, Drop(n));
    OneMoreLost(hash, cap, s, host, n, LockKey(hash, host, 0));
  }

  lemma {:induction false} LoseMany(hash: string -> int, cap: nat, host: string, n: nat)
    returns (ls: seq<Label>, s: Sys)
    requires cap > 0
    ensures Leads(hash, cap, host, ls, s, n) && AllLost(s, host, n)
  {
    if n == 0 {
      ls, s := [], Sys(map[], map[]);
    } else {
      ls, s := LoseMany(hash, cap, host, n - 1);
      ls, s := LoseOne(hash, cap, host, ls, s, n - 1);
    }
  }

  /** Beside the n lost sessions, one sends under each of the keys. */
  ghost predicate Filled(s: Sys, host: string, n: nat, keys: set<int>, sessions: nat) {
    && (forall k :: k in s.locks <==> k in keys) && (forall x | x in s.sends :: x < sessions)
    && |Orphans(s, host)| == n && |InFlight(s, host)| == |keys|
  }

  lemma SendAdded(s: Sys, s': Sys, host: string, x: nat, slot: nat)
    requires x !in s.sends && s'.sends == s.sends[x := Sending(host, slot)]
    ensures |InFlight(s', host)| == |InFlight(s, host)| + 1 && Orphans(s', host) == Orphans(s, host)
  {
    assert InFlight(s', host) == InFlight(s, host) + {x};
  }

  lemma OneMoreFilled(s: Sys, s': Sys, host: string, n: nat, keys: set<int>, x: nat, key: int, slot: nat)
    requires Filled(s, host, n, keys, x) && key !in keys
    requires s'.locks == s.locks[key := Lock(x, 1)] && s'.sends == s.sends[x := Sending(host, slot)]
    ensures Filled(s', host, n, keys + {key}, x + 1)
  {
    SendAdded(s, s', host, x, slot);
  }

  lemma FillOne(hash: string -> int, cap: nat, host: string, ls: seq<Label>, s: Sys, n: nat, keys: set<int>, slot: nat)
    returns (more: seq<Label>, s': Sys)
    requires Leads(hash, cap, host, ls, s, n) && Filled(s, host, n, keys, n + slot) && slot < cap
    ensures Leads(hash, cap, host, more, s', n)
    ensures Filled(s', host, n, keys + {LockKey(hash, host, slot)}, n + slot + 1)
  {
    var key := LockKey(hash, host, slot);
    if key in s.locks {
      more, s' := ls, s;
      assert keys + {key} == keys;
    } else {
      more, s' := TakeSlot(hash, cap, host, ls, s, n, n + slot, slot);
      OneMoreFilled(s, s', host, n, keys, n + slot, key, slot);
    }
  }

  lemma NoneSending(s: Sys, host: string, n: nat)
    requires AllLost(s, host, n)
    ensures Filled(s, host, n, {}, n)
  {
    assert Orphans(s, host) == UpTo(n) && InFlight(s, host) == {};
  }

  lemma {:induction false} Fill(hash: string -> int, cap: nat, host: string, n: nat, slots: nat)
    returns (ls: seq<Label>, s: Sys)
    requires cap > 0 && slots <= cap
    ensures Leads(hash, cap, host, ls, s, n) && Filled(s, host, n, SlotKeys(hash, host, slots), n + slots)
    decreases slots
  {
    if slots == 0 {
      ls, s := LoseMany(hash, cap, host, n);
      NoneSending(s, host, n);
    } else {
      ls, s := Fill(hash, cap, host, n, slots - 1);
      ls, s := FillOne(hash, cap, host, ls, s, n, SlotKeys(hash, host, slots - 1), slots - 1);
    }
  }

  /** A lost session frees its slot while its transfer goes on: with n losses, n sends more than there are keys. */
  lemma DropExceedsCap(hash: string -> int, cap: nat, host: string, n: nat) returns (ls: seq<Label>)
    requires cap > 0
    ensures Run(hash, Sys(map[], map[]), cap, ls) && Losses(hash, Sys(map[], map[]), cap, ls, host) == n
    ensures var s := Exec(hash, Sys(map[], map[]), cap, ls);
            |InFlight(s, host)| == |SlotKeys(hash, host, cap)| && |Orphans(s, host)| == n
  {
    var s;
    ls, s := Fill(hash, cap, host, n, cap);
  }

  // ---- the condition -----------------------------------------------------------------------------

  /** All the sends to the host, in every run that loses at most n of them. */
  ghost predicate KeepsCap(hash: string -> int, cap: nat, host: string, n: nat)
    requires cap > 0
  {
    forall ls | Run(hash, Sys(map[], map[]), cap, ls) && Losses(hash, Sys(map[], map[]), cap, ls, host) <= n ::
      var s := Exec(hash, Sys(map[], map[]), cap, ls); |InFlight(s, host)| + |Orphans(s, host)| <= cap
  }

  /** Runs that lose at most n sessions while they send keep all the sends to a host within its cap if and
      only if the distinct keys of its slots and n together do. */
  lemma CapHoldsIff(hash: string -> int, cap: nat, host: string, n: nat)
    requires cap > 0
    ensures KeepsCap(hash, cap, host, n) <==> |SlotKeys(hash, host, cap)| + n <= cap
  {
    var start := Sys(map[], map[]);
    if |SlotKeys(hash, host, cap)| + n <= cap {
      forall ls | Run(hash, start, cap, ls) && Losses(hash, start, cap, ls, host) <= n
        ensures var s := Exec(hash, start, cap, ls); |InFlight(s, host)| + |Orphans(s, host)| <= cap
      {
        CapHolds(hash, start, cap, ls, host);
        OrphansBounded(hash, start, cap, ls, host);
        assert Orphans(start, host) == {};
      }
    } else {
      var ls := DropExceedsCap(hash, cap, host, n);
    }
  }

  /** No two slots of the host share a key. */
  ghost predicate KeysApart(hash: string -> int, host: string, cap: nat) {
    forall a: nat, b: nat | a < b < cap :: LockKey(hash, host, a) != LockKey(hash, host, b)
  }

  lemma {:induction false} KeysApartCount(hash: string -> int, host: string, cap: nat)
    requires KeysApart(hash, host, cap)
    ensures |SlotKeys(hash, host, cap)| == cap
    ensures forall k | k in SlotKeys(hash, host, cap) :: exists a: nat :: a < cap && LockKey(hash, host, a) == k
  {
    if cap == 0 {
    } else {
      KeysApartCount(hash, host, cap - 1);
      assert LockKey(hash, host, cap - 1) !in SlotKeys(hash, host, cap - 1);
    }
  }

  /** Where no hashes collide, the cap holds for all sends exactly when none is lost. */
  lemma CapHoldsIffNoneLost(hash: string -> int, cap: nat, host: string, n: nat)
    requires cap > 0 && KeysApart(hash, host, cap)
    ensures KeepsCap(hash, cap, host, n) <==> n == 0
  {
    KeysApartCount(hash, host, cap);
    CapHoldsIff(hash, cap, host, n);
  }
}
