/** What the pool guarantees, over every run. */
module FtpPoolTheorems {
  import opened Common
  import opened FtpPool
  import opened FtpPoolSystem
  import opened FtpPoolPlaces

  ghost predicate Inv(s: Sys) {
    AllCounted(s) && Queued(s) && Placed(s)
  }

  /** A goroutine that occupies a slot knows a host the pool has an entry for. */
  lemma UserHostKnown(s: Sys, g: nat)
    requires AllCounted(s) && g in s.gs && IsUser(s.gs[g], s.gs[g].host)
    ensures s.gs[g].host in s.hosts
  {
    var h := s.gs[g].host;
    assert Counted(s, h);
    assert g in Matching(s.gs, UserAt(h));
  }

  lemma KeepsCounts(s: Sys, l: Label)
    requires AllCounted(s) && Queued(s) && Enabled(s, l)
    ensures AllCounted(Next(s, l))
  {
    var s' := Next(s, l);
    forall k ensures Counted(s', k) {
      assert Counted(s, k);
      match l {
        case Begin(g, h) => SetCounts(s.gs, g, Trying(h, false), k);
        case Try(g, now) => assert Counted(s, s.gs[g].host); TryCounts(s, g, now, k);
        case DialOk(g) => SetCounts(s.gs, g, s'.gs[g], k);
        case DialFail(g, connected) => DialFailCounts(s, g, connected, k);
        case PingOk(g) => SetCounts(s.gs, g, s'.gs[g], k);
        case PingFail(g) => PingFailCounts(s, g, k);
        case Receive(g) => SetCounts(s.gs, g, s'.gs[g], k);
        case Cancel(g) => CancelCounts(s, g, k);
        case Release(g, broken, now) => ReleaseCounts(s, g, broken, now, k);
        case Close(order) =>
      }
    }
  }

  /** Closing a connection touches neither the counts nor the queues. */
  lemma QuitFrames(s: Sys, s': Sys)
    requires AllCounted(s) && Queued(s)
    requires s' == s.(quit := s'.quit, loc := s'.loc, conns := s'.conns)
    ensures AllCounted(s') && Queued(s')
  {
    forall h ensures Counted(s', h) && QueueOk(s', h) {
      assert Counted(s, h) && QueueOk(s, h);
    }
    forall g | g in s'.gs ensures ParkedOk(s', g) {
      assert ParkedOk(s, g);
    }
  }

  lemma DialFailCounts(s: Sys, g: nat, connected: bool, k: Host)
    requires AllCounted(s) && Queued(s) && Enabled(s, DialFail(g, connected))
    ensures Counted(Next(s, DialFail(g, connected)), k)
  {
    var mid := if connected then Quit(s, s.conns).(conns := s.conns + 1) else s;
    QuitFrames(s, mid);
    FreeCounts(mid, g, None, k);
  }

  lemma PingFailCounts(s: Sys, g: nat, k: Host)
    requires AllCounted(s) && Queued(s) && Enabled(s, PingFail(g))
    ensures Counted(Next(s, PingFail(g)), k)
  {
    var mid := Quit(s, s.gs[g].conn);
    QuitFrames(s, mid);
    FreeCounts(mid, g, Some(Trying(s.gs[g].host, false)), k);
  }

  lemma KeepsQueues(s: Sys, l: Label)
    requires AllCounted(s) && Queued(s) && Enabled(s, l)
    ensures Queued(Next(s, l))
  {
    var s' := Next(s, l);
    match l {
      case Begin(g, h) => UnqueuedMoves(s, s', g);
      case Try(g, now) => TryQueues(s, g, now);
      case DialOk(g) => UnqueuedMoves(s, s', g);
      case DialFail(g, connected) =>
        UserHostKnown(s, g);
        var mid := if connected then Quit(s, s.conns).(conns := s.conns + 1) else s;
        QuitFrames(s, mid);
        FreeQueues(mid, g, None);
      case PingOk(g) => UnqueuedMoves(s, s', g);
      case PingFail(g) =>
        UserHostKnown(s, g);
        QuitFrames(s, Quit(s, s.gs[g].conn));
        FreeQueues(Quit(s, s.gs[g].conn), g, Some(Trying(s.gs[g].host, false)));
      case Receive(g) => UnqueuedMoves(s, s', g);
      case Cancel(g) => CancelQueues(s, g);
      case Release(g, broken, now) => UserHostKnown(s, g); ReleaseQueues(s, g, broken, now);
      case Close(order) => CloseQueues(s, order);
    }
  }

  lemma CloseQueues(s: Sys, order: seq<Host>)
    requires Queued(s) && SeqSet(order) == s.hosts.Keys
    ensures Queued(StepClose(s, order))
  {
    var s' := StepClose(s, order);
    forall h ensures QueueOk(s', h) {
      assert QueueOk(s, h);
    }
    forall g | g in s'.gs ensures ParkedOk(s', g) {
      assert ParkedOk(s, g);
    }
  }

  lemma KeepsPlaces(s: Sys, l: Label)
    requires Placed(s) && Enabled(s, l)
    ensures Placed(Next(s, l))
  {
    match l {
      case Try(g, now) => TryPlaces(s, g, now);
      case DialOk(g) => DialPlaces(s, g);
      case DialFail(g, connected) =>
        if connected {
          LoginFailPlaces(s);
          FreePlaces(Quit(s, s.conns).(conns := s.conns + 1), g, None);
        } else {
          FreePlaces(s, g, None);
        }
      case PingFail(g) => PingFailPlaces(s, g);
      case Release(g, broken, now) => ReleasePlaces(s, g, broken, now);
      case Close(order) => ClosePlaces(s, order);
      case _ => SamePlaces(s, Next(s, l));
    }
  }

  lemma StepKeepsInv(s: Sys, l: Label)
    requires Inv(s) && Enabled(s, l)
    ensures Inv(Next(s, l))
  {
    KeepsCounts(s, l);
    KeepsQueues(s, l);
    KeepsPlaces(s, l);
  }

  lemma {:induction false} RunKeepsInv(s: Sys, ls: seq<Label>)
    requires Inv(s) && Run(s, ls)
    ensures Inv(Exec(s, ls)) && Exec(s, ls).cfg == s.cfg
    decreases |ls|
  {
    if |ls| == 0 {
    } else {
      StepKeepsInv(s, ls[0]);
      RunKeepsInv(Next(s, ls[0]), ls[1..]);
    }
  }

  lemma InitInv(s: Sys)
    requires Init(s)
    ensures Inv(s)
  {
  }

  /** While the pool is open: the free slots of a host with parked waiters never outnumber the
      goroutines already woken; with nobody woken, every slot is in use. */
  lemma NoLostWakeup(s0: Sys, ls: seq<Label>, h: Host)
    requires Init(s0) && Run(s0, ls)
    ensures var s := Exec(s0, ls);
            var hp := HostOf(s.hosts, h);
            !s.closed && |hp.waiters| > 0 ==>
              && s0.cfg.maxPerHost - hp.inUse <= Woken(s, h)
              && (Woken(s, h) == 0 ==> hp.inUse == s0.cfg.maxPerHost)
  {
    InitInv(s0);
    RunKeepsInv(s0, ls);
    assert Counted(Exec(s0, ls), h);
  }

  /** In every reachable state inUse counts exactly the goroutines dialling, pinging or holding a
      connection of the host, and together with the idle connections it stays within the cap. */
  lemma SlotsConserved(s0: Sys, ls: seq<Label>, h: Host)
    requires Init(s0) && Run(s0, ls)
    ensures var s := Exec(s0, ls);
            var hp := HostOf(s.hosts, h);
            && hp.inUse == Count(s.gs, UserAt(h))
            && hp.inUse + |hp.idle| <= s0.cfg.maxPerHost
            && (s.closed ==> hp.idle == [])
  {
    InitInv(s0);
    RunKeepsInv(s0, ls);
    assert Counted(Exec(s0, ls), h);
  }

  ghost predicate IsIdle(s: Sys, c: nat) {
    exists h :: c in Conns(HostOf(s.hosts, h).idle)
  }

  ghost predicate IsHeld(s: Sys, c: nat) {
    exists g | g in s.gs :: ConnOf(s.gs[g]) == Some(c)
  }

  /** Exactly one of idle, held and quit; one place in its kind. */
  ghost predicate OnePlace(s: Sys, c: nat) {
    && (c < s.conns <==> IsIdle(s, c) || IsHeld(s, c) || c in s.quit)
    && !(IsIdle(s, c) && IsHeld(s, c)) && !(IsIdle(s, c) && c in s.quit) && !(IsHeld(s, c) && c in s.quit)
    && (forall h, k :: c in Conns(HostOf(s.hosts, h).idle) && c in Conns(HostOf(s.hosts, k).idle) ==> h == k)
    && (forall g, x | g in s.gs && x in s.gs :: ConnOf(s.gs[g]) == Some(c) && ConnOf(s.gs[x]) == Some(c) ==> g == x)
  }

  lemma PlacedOnce(s: Sys, c: nat)
    requires Placed(s)
    ensures OnePlace(s, c)
  {
    forall h ensures c in Conns(HostOf(s.hosts, h).idle) <==> c in s.loc && s.loc[c] == InIdle(h) {
      assert IdlePlaced(s, h);
    }
    assert IsIdle(s, c) <==> c in s.loc && s.loc[c].InIdle? by {
      if c in s.loc && s.loc[c].InIdle? {
        assert c in Conns(HostOf(s.hosts, s.loc[c].host).idle);
      }
    }
    assert IsHeld(s, c) <==> c in s.loc && s.loc[c].HeldBy? by {
      if c in s.loc && s.loc[c].HeldBy? {
        assert s.loc[c].g in s.gs && ConnOf(s.gs[s.loc[c].g]) == Some(c);
      }
    }
  }

  /** Every connection ever dialled is idle, held or quit, and only one of these; it is idle at one
      place of one host only, held by one goroutine only, and quit once only. */
  lemma OnePlacePerConnection(s0: Sys, ls: seq<Label>)
    requires Init(s0) && Run(s0, ls)
    ensures var s := Exec(s0, ls);
            && (forall c: nat :: OnePlace(s, c))
            && (forall h :: NoDup(Conns(HostOf(s.hosts, h).idle)))
            && NoDup(s.quit)
  {
    InitInv(s0);
    RunKeepsInv(s0, ls);
    var s := Exec(s0, ls);
    forall c: nat ensures OnePlace(s, c) {
      PlacedOnce(s, c);
    }
    forall h ensures NoDup(Conns(HostOf(s.hosts, h).idle)) {
      assert IdlePlaced(s, h);
    }
  }
}
