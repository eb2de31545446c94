/** After Close the wake-up guarantee is gone: a waiter can be left parked for good. */
module FtpPoolClosed {
  import opened Common
  import opened FtpPool
  import opened FtpPoolSystem
  import opened FtpPoolTheorems

  /** The pool is closed and whoever is still there is on its way to the mutex or parked untold. */
  ghost predicate Stranded(s: Sys) {
    s.closed && forall g | g in s.gs :: s.gs[g].Trying? || (s.gs[g].Parked? && !s.gs[g].token)
  }

  /** Nothing that happens to such a pool wakes a parked goroutine; only its own context ends the wait. */
  lemma {:induction false} StrandedForever(s: Sys, ls: seq<Label>, g: nat)
    requires Inv(s) && Stranded(s) && Run(s, ls)
    requires g in s.gs && s.gs[g].Parked? && Cancel(g) !in ls
    ensures g in Exec(s, ls).gs && Exec(s, ls).gs[g] == s.gs[g]
    decreases |ls|
  {
    if |ls| == 0 {
    } else {
      assert ls[0] in ls;
      StepKeepsInv(s, ls[0]);
      StrandedForever(Next(s, ls[0]), ls[1..], g);
    }
  }

  // ---- exactly who is left behind ------------------------------------------------------------

  /** The waiters left when so many slots were given up, each taking one of them. */
  function Rest(waiters: nat, freed: int): nat {
    if waiters <= freed then 0 else if freed < 0 then waiters else waiters - freed
  }

  /** From one state of a host to a later one: slots given up, and as many waiters gone; or more, when some
      cancelled. */
  ghost predicate Shrunk(hp: HostPool, hp': HostPool, exact: bool) {
    && 0 <= hp'.inUse <= hp.inUse
    && |hp'.waiters| <= Rest(|hp.waiters|, hp.inUse - hp'.inUse)
    && (exact ==> |hp'.waiters| == Rest(|hp.waiters|, hp.inUse - hp'.inUse))
  }

  lemma ShrunkTwice(a: HostPool, b: HostPool, c: HostPool, first: bool, second: bool)
    requires Shrunk(a, b, first) && Shrunk(b, c, second)
    ensures Shrunk(a, c, first && second)
  {
  }

  /** In a closed pool nobody joins a queue or takes a slot, and each slot given up takes one waiter off. */
  lemma ClosedStep(s: Sys, l: Label, h: Host)
    requires s.closed && AllCounted(s) && Queued(s) && Enabled(s, l)
    ensures Next(s, l).closed && Shrunk(HostOf(s.hosts, h), HostOf(Next(s, l).hosts, h), !l.Cancel?)
  {
    ClosedMoves(s, l, h);
    KeepsCounts(s, l);
    assert Counted(Next(s, l), h);
  }

  lemma ClosedMoves(s: Sys, l: Label, h: Host)
    requires s.closed && Enabled(s, l)
    ensures var hp, hp' := HostOf(s.hosts, h), HostOf(Next(s, l).hosts, h);
            && Next(s, l).closed && hp'.inUse <= hp.inUse
            && |hp'.waiters| <= Rest(|hp.waiters|, hp.inUse - hp'.inUse)
            && (!l.Cancel? ==> |hp'.waiters| == Rest(|hp.waiters|, hp.inUse - hp'.inUse))
  {
  }

  predicate NoCancel(ls: seq<Label>) {
    forall l | l in ls :: !l.Cancel?
  }

  lemma {:induction false} ClosedRun(s: Sys, ls: seq<Label>, h: Host)
    requires s.closed && Inv(s) && Run(s, ls)
    ensures Inv(Exec(s, ls)) && Shrunk(HostOf(s.hosts, h), HostOf(Exec(s, ls).hosts, h), NoCancel(ls))
    decreases |ls|
  {
    if |ls| == 0 {
      assert Counted(s, h);
    } else {
      var s' := Next(s, ls[0]);
      ClosedStep(s, ls[0], h);
      StepKeepsInv(s, ls[0]);
      ClosedRun(s', ls[1..], h);
      assert NoCancel(ls) ==> !ls[0].Cancel? && NoCancel(ls[1..]);
      ShrunkTwice(HostOf(s.hosts, h), HostOf(s'.hosts, h), HostOf(Exec(s, ls).hosts, h), !ls[0].Cancel?,
                  NoCancel(ls[1..]));
    }
  }

  /** Somebody is in the select for the host, and no token is on its way. */
  ghost predicate LeftBehind(s: Sys, h: Host) {
    exists g | g in s.gs :: s.gs[g].Parked? && s.gs[g].host == h && !s.gs[g].token
  }

  lemma LeftBehindQueue(s: Sys, h: Host)
    requires Queued(s)
    ensures LeftBehind(s, h) <==> |HostOf(s.hosts, h).waiters| > 0
  {
    assert QueueOk(s, h);
    if g :| g in s.gs && s.gs[g].Parked? && s.gs[g].host == h && !s.gs[g].token {
      assert ParkedOk(s, g);
    }
    if |HostOf(s.hosts, h).waiters| > 0 {
      var ch := HostOf(s.hosts, h).waiters[0];
      assert ch.owner in s.gs && s.gs[ch.owner] == Parked(h, ch, false);
    }
  }

  /** Who waits in vain is decided when the pool is closed: once the slots of the host have all been given
      up, and nobody has cancelled, somebody is left behind if and only if there were more waiters than slots
      in use. With cancellations that is still the only way. */
  lemma StrandedIff(s0: Sys, before: seq<Label>, order: seq<Host>, ls: seq<Label>, h: Host)
    requires Init(s0) && Run(s0, before) && Enabled(Exec(s0, before), Close(order))
    requires Run(Next(Exec(s0, before), Close(order)), ls)
    requires HostOf(Exec(Next(Exec(s0, before), Close(order)), ls).hosts, h).inUse == 0
    ensures var hp := HostOf(Exec(s0, before).hosts, h);
            var end := Exec(Next(Exec(s0, before), Close(order)), ls);
            && (LeftBehind(end, h) ==> |hp.waiters| > hp.inUse)
            && (NoCancel(ls) ==> (LeftBehind(end, h) <==> |hp.waiters| > hp.inUse))
            && |HostOf(end.hosts, h).waiters| <= Rest(|hp.waiters|, hp.inUse)
  {
    var s := Exec(s0, before);
    InitInv(s0);
    RunKeepsInv(s0, before);
    StepKeepsInv(s, Close(order));
    var closed := Next(s, Close(order));
    ClosedRun(closed, ls, h);
    LeftBehindQueue(Exec(closed, ls), h);
    assert HostOf(closed.hosts, h).inUse == HostOf(s.hosts, h).inUse;
  }

  ghost predicate Step(s: Sys, s': Sys) {
    exists l :: Enabled(s, l) && s' == Next(s, l)
  }

  /** A run from `s0` to `s`, as the states it visits. */
  ghost predicate Trace(ss: seq<Sys>, s0: Sys, s: Sys) {
    && |ss| > 0 && ss[0] == s0 && ss[|ss| - 1] == s
    && forall i | 0 <= i < |ss| - 1 :: Step(ss[i], ss[i + 1])
  }

  lemma Extend(ss: seq<Sys>, s0: Sys, s: Sys, s': Sys) returns (more: seq<Sys>)
    requires Trace(ss, s0, s) && Step(s, s')
    ensures Trace(more, s0, s')
  {
    more := ss + [s'];
  }

  lemma Enter(s: Sys, g: nat, h: Host) returns (s': Sys)
    requires g !in s.gs
    ensures Step(s, s') && s' == s.(gs := s.gs[g := Trying(h, false)])
  {
    assert Enabled(s, Begin(g, h));
    s' := Next(s, Begin(g, h));
  }

  lemma FirstDials(s: Sys, g: nat, h: Host) returns (s': Sys)
    requires !s.closed && s.cfg.maxPerHost == 1 && s.hosts == map[] && g in s.gs && s.gs[g] == Trying(h, false)
    ensures Step(s, s') && !s'.closed && s'.cfg == s.cfg
    ensures s'.hosts == map[h := HostPool([], 1, [])] && s'.gs == s.gs[g := Dialing(h)]
  {
    assert Enabled(s, Try(g, 0));
    s' := Next(s, Try(g, 0));
  }

  lemma DialSucceeds(s: Sys, g: nat) returns (s': Sys)
    requires g in s.gs && s.gs[g].Dialing?
    ensures Step(s, s') && s'.cfg == s.cfg && s'.closed == s.closed && s'.hosts == s.hosts
    ensures s'.gs == s.gs[g := Holding(s.gs[g].host, s.conns)]
  {
    assert Enabled(s, DialOk(g));
    s' := Next(s, DialOk(g));
  }

  lemma Queues(s: Sys, g: nat, h: Host, ws: seq<Chan>) returns (s': Sys)
    requires !s.closed && s.cfg.maxPerHost == 1 && s.hosts == map[h := HostPool([], 1, ws)]
    requires g in s.gs && s.gs[g] == Trying(h, false)
    ensures Step(s, s') && !s'.closed && s'.cfg == s.cfg
    ensures var ch := Chan(g, s.chans);
            s'.hosts == map[h := HostPool([], 1, ws + [ch])] && s'.gs == s.gs[g := Parked(h, ch, false)]
  {
    assert Enabled(s, Try(g, 0));
    s' := Next(s, Try(g, 0));
  }

  lemma Closes(s: Sys, h: Host, ws: seq<Chan>) returns (s': Sys)
    requires s.hosts == map[h := HostPool([], 1, ws)]
    ensures Step(s, s') && s'.closed && s'.cfg == s.cfg && s'.hosts == s.hosts && s'.gs == s.gs
  {
    assert SeqSet([h]) == s.hosts.Keys;
    assert Enabled(s, Close([h]));
    s' := Next(s, Close([h]));
  }

  lemma ReleasesAfterClose(s: Sys, g: nat, h: Host, a: Chan, b: Chan) returns (s': Sys)
    requires s.closed && s.hosts == map[h := HostPool([], 1, [a, b])]
    requires g in s.gs && s.gs[g].Holding? && s.gs[g].host == h
    requires a.owner in s.gs && a.owner != g && s.gs[a.owner] == Parked(h, a, false)
    ensures Step(s, s') && s'.closed && s'.cfg == s.cfg && s'.hosts == map[h := HostPool([], 0, [b])]
    ensures s'.gs == (s.gs - {g})[a.owner := Parked(h, a, true)]
  {
    assert Enabled(s, Release(g, false, 0));
    s' := Next(s, Release(g, false, 0));
    assert s'.hosts == map[h := HostPool([], 0, [b])];
  }

  /** The woken goroutine finds the pool closed and leaves without passing its token on. */
  lemma WokenLeaves(s: Sys, g: nat, h: Host, a: Chan) returns (s1: Sys, s2: Sys)
    requires s.closed && g in s.gs && s.gs[g] == Parked(h, a, true)
    ensures Step(s, s1) && Step(s1, s2) && s2 == s.(gs := s.gs - {g})
  {
    assert Enabled(s, Receive(g));
    s1 := Next(s, Receive(g));
    assert Enabled(s1, Try(g, 0));
    s2 := Next(s1, Try(g, 0));
  }

  lemma HolderAndTwoWaiters(s0: Sys, h: Host) returns (ss: seq<Sys>, s: Sys, a: Chan, b: Chan)
    requires Init(s0) && s0.cfg.maxPerHost == 1
    ensures Trace(ss, s0, s) && !s.closed && s.hosts == map[h := HostPool([], 1, [a, b])]
    ensures s.gs.Keys == {1, 2, 3} && s.gs[1].Holding? && s.gs[1].host == h
    ensures a.owner == 2 && s.gs[2] == Parked(h, a, false) && s.gs[3] == Parked(h, b, false)
  {
    var s1 := Enter(s0, 1, h);
    ss := Extend([s0], s0, s0, s1);
    var s2 := FirstDials(s1, 1, h);
    ss := Extend(ss, s0, s1, s2);
    var s3 := DialSucceeds(s2, 1);
    ss := Extend(ss, s0, s2, s3);
    var s4 := Enter(s3, 2, h);
    ss := Extend(ss, s0, s3, s4);
    a := Chan(2, s4.chans);
    var s5 := Queues(s4, 2, h, []);
    ss := Extend(ss, s0, s4, s5);
    assert [] + [a] == [a];
    var s6 := Enter(s5, 3, h);
    ss := Extend(ss, s0, s5, s6);
    b := Chan(3, s6.chans);
    s := Queues(s6, 3, h, [a]);
    ss := Extend(ss, s0, s6, s);
    assert [a] + [b] == [a, b];
  }

  /** With one slot, one holder and two waiters: after Close and the release, a waiter stays parked
      although the slot is free, nobody has been woken, and nobody is left to wake it. */
  lemma CloseStrandsWaiter(s0: Sys, h: Host) returns (ss: seq<Sys>, s: Sys)
    requires Init(s0) && s0.cfg.maxPerHost == 1
    ensures Trace(ss, s0, s)
    ensures Stranded(s) && HostOf(s.hosts, h).inUse == 0 && |HostOf(s.hosts, h).waiters| == 1
    ensures s.gs.Keys == {3} && s.gs[3].Parked? && s.gs[3].host == h
  {
    var full, a, b;
    ss, full, a, b := HolderAndTwoWaiters(s0, h);
    var s1 := Closes(full, h, [a, b]);
    ss := Extend(ss, s0, full, s1);
    var s2 := ReleasesAfterClose(s1, 1, h, a, b);
    ss := Extend(ss, s0, s1, s2);
    var s3;
    s3, s := WokenLeaves(s2, 2, h, a);
    ss := Extend(ss, s0, s2, s3);
    ss := Extend(ss, s0, s3, s);
  }
}
