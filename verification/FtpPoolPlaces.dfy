/** Every step of the pool keeps each connection in exactly one place. */
module FtpPoolPlaces {
  import opened Common
  import opened FtpPool
  import opened FtpPoolSystem

  /** A step that leaves idle lists, holdings and the quit log alone. */
  lemma SamePlaces(s: Sys, s': Sys)
    requires Placed(s) && s'.loc == s.loc && s'.quit == s.quit && s'.conns == s.conns
    requires forall h :: HostOf(s'.hosts, h).idle == HostOf(s.hosts, h).idle
    requires forall g | g in s.gs :: ConnOf(s.gs[g]).Some? ==> g in s'.gs && ConnOf(s'.gs[g]) == ConnOf(s.gs[g])
    requires forall g | g in s'.gs :: ConnOf(s'.gs[g]).Some? ==> g in s.gs && ConnOf(s'.gs[g]) == ConnOf(s.gs[g])
    ensures Placed(s')
  {
    forall h ensures IdlePlaced(s', h) {
      assert IdlePlaced(s, h);
    }
  }

  // ---- the idle scan ------------------------------------------------------------

  /** The entries beyond the first `kept` are quit, from the last one down. */
  ghost predicate CutOff(idle: seq<IdleEntry>, kept: nat, dropped: seq<nat>) {
    && kept <= |idle| && |dropped| == |idle| - kept
    && (forall i | 0 <= i < |dropped| :: dropped[i] == idle[|idle| - 1 - i].conn)
  }

  lemma CutOffParts(idle: seq<IdleEntry>, kept: nat, dropped: seq<nat>)
    requires CutOff(idle, kept, dropped) && NoDup(Conns(idle))
    ensures NoDup(dropped) && NoDup(Conns(idle[..kept]))
    ensures forall c :: c in Conns(idle[..kept]) <==> c in Conns(idle) && c !in dropped
    ensures forall c | c in dropped :: c in Conns(idle)
  {
    var cs, front := Conns(idle), Conns(idle[..kept]);
    assert forall i | 0 <= i < kept :: front[i] == cs[i];
    assert forall i | 0 <= i < |dropped| :: dropped[i] == cs[|idle| - 1 - i];
    forall c | c in cs ensures c in front || c in dropped {
      var i :| 0 <= i < |cs| && cs[i] == c;
      if i >= kept {
        assert dropped[|idle| - 1 - i] == c;
      } else {
        assert front[i] == c;
      }
    }
    forall c | c in front ensures c in cs && c !in dropped {
      var i :| 0 <= i < kept && front[i] == c;
      assert cs[i] == c;
    }
    forall c | c in dropped ensures c in cs {
      var i :| 0 <= i < |dropped| && dropped[i] == c;
      assert cs[|idle| - 1 - i] == c;
    }
  }

  ghost predicate Truncates(s: Sys, s': Sys, h: Host, kept: nat, dropped: seq<nat>) {
    && CutOff(HostOf(s.hosts, h).idle, kept, dropped)
    && HostOf(s'.hosts, h).idle == HostOf(s.hosts, h).idle[..kept]
    && (forall k | k != h :: HostOf(s'.hosts, k).idle == HostOf(s.hosts, k).idle)
    && s'.gs == s.gs && s'.conns == s.conns
    && s'.quit == s.quit + dropped && s'.loc == Dropped(s.loc, dropped)
  }

  lemma TruncatePlaces(s: Sys, s': Sys, h: Host, kept: nat, dropped: seq<nat>)
    requires Placed(s) && Truncates(s, s', h, kept, dropped)
    ensures Placed(s')
  {
    var idle := HostOf(s.hosts, h).idle;
    assert IdlePlaced(s, h);
    CutOffParts(idle, kept, dropped);
    assert forall c | c in dropped :: c in s.loc && s.loc[c] == InIdle(h);
    forall k ensures IdlePlaced(s', k) {
      assert IdlePlaced(s, k);
    }
    assert HeldPlaced(s');
    QuitMore(s, s', dropped);
  }

  lemma QuitMore(s: Sys, s': Sys, dropped: seq<nat>)
    requires QuitPlaced(s) && NoDup(dropped)
    requires forall c | c in dropped :: c in s.loc && s.loc[c] != Gone
    requires s'.quit == s.quit + dropped && s'.loc == Dropped(s.loc, dropped)
    ensures QuitPlaced(s')
  {
    forall i, j | 0 <= i < j < |s'.quit| ensures s'.quit[i] != s'.quit[j] {
      if i < |s.quit| <= j {
        assert s'.quit[j] == dropped[j - |s.quit|] && s'.quit[j] in dropped;
        assert s'.quit[i] in s.quit;
      }
    }
    forall c ensures c in s'.quit <==> c in s'.loc && s'.loc[c] == Gone {
      assert c in s'.quit <==> c in s.quit || c in dropped;
    }
  }

  /** The youngest idle connection passes to goroutine `g`. */
  lemma TakePlaces(s: Sys, s': Sys, h: Host, g: nat, c: nat)
    requires Placed(s) && g in s.gs && ConnOf(s.gs[g]).None?
    requires var idle := HostOf(s.hosts, h).idle;
             |idle| > 0 && idle[|idle| - 1].conn == c && HostOf(s'.hosts, h).idle == idle[..|idle| - 1]
    requires forall k | k != h :: HostOf(s'.hosts, k).idle == HostOf(s.hosts, k).idle
    requires s'.gs.Keys == s.gs.Keys && ConnOf(s'.gs[g]) == Some(c)
    requires forall x | x in s.gs && x != g :: s'.gs[x] == s.gs[x]
    requires s'.quit == s.quit && s'.conns == s.conns && s'.loc == s.loc[c := HeldBy(g)]
    ensures Placed(s')
  {
    var idle := HostOf(s.hosts, h).idle;
    assert IdlePlaced(s, h);
    CutOffParts(idle, |idle| - 1, [c]);
    assert c in Conns(idle);
    forall k ensures IdlePlaced(s', k) {
      assert IdlePlaced(s, k);
    }
  }

  /** Acquire's round in two moves: the scan cuts the idle list, then the decision is carried out. */
  lemma ScanCuts(s: Sys, h: Host, now: int) returns (mid: Sys)
    ensures var sc := ScanIdle(HostOf(s.hosts, h).idle, now, s.cfg.idleTTL);
            && mid == s.(hosts := mid.hosts, quit := s.quit + sc.dropped, loc := Dropped(s.loc, sc.dropped))
            && Truncates(s, mid, h, |sc.idle| + One(sc.found.Some?), sc.dropped)
            && (sc.found.Some? ==> HostOf(mid.hosts, h).idle == sc.idle + [sc.found.value])
            && (sc.found.None? ==> HostOf(mid.hosts, h).idle == [])
  {
    var hp := HostOf(s.hosts, h);
    var sc := ScanIdle(hp.idle, now, s.cfg.idleTTL);
    ScanShape(hp.idle, now, s.cfg.idleTTL);
    var kept := |sc.idle| + One(sc.found.Some?);
    mid := s.(hosts := s.hosts[h := hp.(idle := hp.idle[..kept])],
              quit := s.quit + sc.dropped, loc := Dropped(s.loc, sc.dropped));
  }

  lemma FoundPlaces(s: Sys, g: nat, now: int, mid: Sys)
    requires g in s.gs && s.gs[g].Trying? && !s.closed && Placed(mid)
    requires var sc := ScanIdle(HostOf(s.hosts, s.gs[g].host).idle, now, s.cfg.idleTTL);
             && mid == s.(hosts := mid.hosts, quit := s.quit + sc.dropped, loc := Dropped(s.loc, sc.dropped))
             && sc.found.Some? && HostOf(mid.hosts, s.gs[g].host).idle == sc.idle + [sc.found.value]
    requires forall k | k != s.gs[g].host :: HostOf(mid.hosts, k).idle == HostOf(s.hosts, k).idle
    ensures Placed(StepTry(s, g, now))
  {
    var sc := ScanIdle(HostOf(s.hosts, s.gs[g].host).idle, now, s.cfg.idleTTL);
    TakePlaces(mid, StepTry(s, g, now), s.gs[g].host, g, sc.found.value.conn);
  }

  lemma TryPlaces(s: Sys, g: nat, now: int)
    requires Placed(s) && g in s.gs && s.gs[g].Trying?
    ensures Placed(StepTry(s, g, now))
  {
    if s.closed {
      SamePlaces(s, StepTry(s, g, now));
    } else {
      var h := s.gs[g].host;
      var sc := ScanIdle(HostOf(s.hosts, h).idle, now, s.cfg.idleTTL);
      var mid := ScanCuts(s, h, now);
      TruncatePlaces(s, mid, h, |sc.idle| + One(sc.found.Some?), sc.dropped);
      if sc.found.Some? {
        FoundPlaces(s, g, now, mid);
      } else {
        SamePlaces(mid, StepTry(s, g, now));
      }
    }
  }

  // ---- dialling, quitting, releasing ------------------------------------------------

  lemma DialPlaces(s: Sys, g: nat)
    requires Placed(s) && Enabled(s, DialOk(g))
    ensures Placed(Next(s, DialOk(g)))
  {
    var s' := Next(s, DialOk(g));
    assert s.conns !in s.loc;
    forall h ensures IdlePlaced(s', h) {
      assert IdlePlaced(s, h);
    }
  }

  /** A connection that was dialled but could not log in is quit on the spot. */
  lemma LoginFailPlaces(s: Sys)
    requires Placed(s)
    ensures Placed(Quit(s, s.conns).(conns := s.conns + 1))
  {
    var s' := Quit(s, s.conns).(conns := s.conns + 1);
    assert s.conns !in s.loc;
    forall h ensures IdlePlaced(s', h) {
      assert IdlePlaced(s, h);
    }
    assert forall i | 0 <= i < |s.quit| :: s.quit[i] in s.quit;
  }

  /** Goroutine `g` gives up its connection, which is closed. */
  lemma QuitHeldPlaces(s: Sys, s': Sys, g: nat, c: nat)
    requires Placed(s) && g in s.gs && ConnOf(s.gs[g]) == Some(c)
    requires s'.quit == s.quit + [c] && s'.loc == s.loc[c := Gone] && s'.conns == s.conns
    requires forall h :: HostOf(s'.hosts, h).idle == HostOf(s.hosts, h).idle
    requires g in s'.gs ==> ConnOf(s'.gs[g]).None?
    requires forall x | x != g :: (x in s.gs <==> x in s'.gs)
    requires forall x | x in s'.gs && x != g :: ConnOf(s'.gs[x]) == ConnOf(s.gs[x])
    ensures Placed(s')
  {
    assert c in s.loc && s.loc[c] == HeldBy(g);
    forall h ensures IdlePlaced(s', h) {
      assert IdlePlaced(s, h);
    }
    assert forall i | 0 <= i < |s.quit| :: s.quit[i] in s.quit;
  }

  /** Goroutine `g` puts its connection back on the idle list of `h`. */
  lemma ReturnPlaces(s: Sys, s': Sys, g: nat, h: Host, e: IdleEntry)
    requires Placed(s) && g in s.gs && ConnOf(s.gs[g]) == Some(e.conn)
    requires s'.quit == s.quit && s'.loc == s.loc[e.conn := InIdle(h)] && s'.conns == s.conns
    requires HostOf(s'.hosts, h).idle == HostOf(s.hosts, h).idle + [e]
    requires forall k | k != h :: HostOf(s'.hosts, k).idle == HostOf(s.hosts, k).idle
    requires g !in s'.gs && forall x | x != g :: (x in s.gs <==> x in s'.gs)
    requires forall x | x in s'.gs :: ConnOf(s'.gs[x]) == ConnOf(s.gs[x])
    ensures Placed(s')
  {
    var idle := HostOf(s.hosts, h).idle;
    assert e.conn in s.loc && s.loc[e.conn] == HeldBy(g);
    assert Conns(idle + [e]) == Conns(idle) + [e.conn];
    forall k ensures IdlePlaced(s', k) {
      assert IdlePlaced(s, k);
      if k == h {
        assert forall i | 0 <= i < |idle| :: Conns(idle)[i] in Conns(idle);
      }
    }
  }

  lemma FreePlaces(s: Sys, g: nat, after: Option<Goroutine>)
    requires Placed(s) && g in s.gs && ConnOf(s.gs[g]).None?
    requires after.Some? ==> ConnOf(after.value).None?
    ensures Placed(StepFree(s, g, after))
  {
    SamePlaces(s, StepFree(s, g, after));
  }

  lemma ReleasePlaces(s: Sys, g: nat, broken: bool, now: int)
    requires Placed(s) && g in s.gs && s.gs[g].Holding?
    ensures Placed(StepRelease(s, g, broken, now))
  {
    var h, c := s.gs[g].host, s.gs[g].conn;
    var s' := StepRelease(s, g, broken, now);
    if !broken && !s.closed {
      ReturnPlaces(s, s', g, h, IdleEntry(c, now, now));
    } else {
      QuitHeldPlaces(s, s', g, c);
    }
  }

  lemma PingFailPlaces(s: Sys, g: nat)
    requires Placed(s) && Enabled(s, PingFail(g))
    ensures Placed(Next(s, PingFail(g)))
  {
    QuitHeldPlaces(s, Next(s, PingFail(g)), g, s.gs[g].conn);
  }

  // ---- Close ------------------------------------------------------------------------

  lemma {:induction false} ClosedConnsPlaced(s: Sys, order: seq<Host>)
    requires NoDup(order) && forall h :: IdlePlaced(s, h)
    ensures NoDup(ClosedConns(s.hosts, order))
    ensures forall c :: c in ClosedConns(s.hosts, order) <==> c in s.loc && s.loc[c].InIdle? && s.loc[c].host in order
    decreases |order|
  {
    if |order| == 0 {
    } else {
      var front, h := order[..|order| - 1], order[|order| - 1];
      ClosedConnsPlaced(s, front);
      assert IdlePlaced(s, h);
      var a, b := ClosedConns(s.hosts, front), Conns(HostOf(s.hosts, h).idle);
      assert h !in front && order == front + [h];
      forall i, j | 0 <= i < j < |a + b| ensures (a + b)[i] != (a + b)[j] {
        if i < |a| <= j {
          assert (a + b)[i] in a && (a + b)[j] in b;
        }
      }
      forall c ensures c in a + b <==> c in s.loc && s.loc[c].InIdle? && s.loc[c].host in order {
        assert c in a + b <==> c in a || c in b;
      }
    }
  }

  lemma ClosePlaces(s: Sys, order: seq<Host>)
    requires Placed(s) && NoDup(order) && SeqSet(order) == s.hosts.Keys
    ensures Placed(StepClose(s, order))
  {
    var s' := StepClose(s, order);
    var gone := ClosedConns(s.hosts, order);
    ClosedConnsPlaced(s, order);
    forall c | c in s.loc && s.loc[c].InIdle? ensures c in gone {
      var h := s.loc[c].host;
      assert IdlePlaced(s, h);
      assert c in Conns(HostOf(s.hosts, h).idle);
      assert h in SeqSet(order);
    }
    forall h ensures IdlePlaced(s', h) {
      assert HostOf(s'.hosts, h).idle == [];
    }
    assert HeldPlaced(s');
    QuitMore(s, s', gone);
  }
}
