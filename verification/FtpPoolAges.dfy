/** How long idle connections live, and when one is checked before it is handed out. */
module FtpPoolAges {
  import opened Common
  import opened FtpPool
  import opened FtpPoolSystem
  import opened FtpPoolTheorems

  /** When each connection was last released. */
  function AfterRelease(s: Sys, l: Label, at: map<nat, int>): map<nat, int> {
    if l.Release? && l.g in s.gs && s.gs[l.g].Holding? then at[s.gs[l.g].conn := l.now] else at
  }

  ghost function LastReleases(s: Sys, ls: seq<Label>, at: map<nat, int>): map<nat, int>
    requires Run(s, ls)
    decreases |ls|
  {
    if |ls| == 0 then at else LastReleases(Next(s, ls[0]), ls[1..], AfterRelease(s, ls[0], at))
  }

  /** Both times of every idle entry of the host are that of the last release of its connection. */
  ghost predicate Dated(s: Sys, at: map<nat, int>, h: Host) {
    forall ie | ie in HostOf(s.hosts, h).idle :: ie.conn in at && ie.enqueue == at[ie.conn] == ie.lastUse
  }

  ghost predicate AllDated(s: Sys, at: map<nat, int>) {
    forall h :: Dated(s, at, h)
  }

  lemma TryDates(s: Sys, g: nat, now: int, at: map<nat, int>, h: Host)
    requires g in s.gs && s.gs[g].Trying? && Dated(s, at, h)
    ensures Dated(StepTry(s, g, now), at, h)
  {
    if !s.closed && h == s.gs[g].host {
      ScanShape(HostOf(s.hosts, h).idle, now, s.cfg.idleTTL);
    }
  }

  /** A connection that is being released is not among the idle ones. */
  lemma ReleaseDates(s: Sys, g: nat, broken: bool, now: int, at: map<nat, int>, h: Host)
    requires Placed(s) && g in s.gs && s.gs[g].Holding? && Dated(s, at, h)
    ensures Dated(StepRelease(s, g, broken, now), at[s.gs[g].conn := now], h)
  {
    var c, idle := s.gs[g].conn, HostOf(s.hosts, h).idle;
    assert IdlePlaced(s, h);
    forall ie | ie in idle ensures ie.conn != c {
      var i :| 0 <= i < |idle| && idle[i] == ie;
      assert Conns(idle)[i] == ie.conn;
    }
  }

  lemma StepDates(s: Sys, l: Label, at: map<nat, int>)
    requires Placed(s) && Enabled(s, l) && AllDated(s, at)
    ensures AllDated(Next(s, l), AfterRelease(s, l, at))
  {
    forall h ensures Dated(Next(s, l), AfterRelease(s, l, at), h) {
      assert Dated(s, at, h);
      match l {
        case Try(g, now) => TryDates(s, g, now, at, h);
        case Release(g, broken, now) => ReleaseDates(s, g, broken, now, at, h);
        case _ =>
      }
    }
  }

  lemma {:induction false} RunDates(s: Sys, ls: seq<Label>, at: map<nat, int>)
    requires Inv(s) && Run(s, ls) && AllDated(s, at)
    ensures AllDated(Exec(s, ls), LastReleases(s, ls, at))
    decreases |ls|
  {
    if |ls| == 0 {
    } else {
      StepDates(s, ls[0], at);
      StepKeepsInv(s, ls[0]);
      RunDates(Next(s, ls[0]), ls[1..], AfterRelease(s, ls[0], at));
    }
  }

  /** The connection is idle at the host, and was released no longer ago than that. */
  predicate IdleSince(s: Sys, at: map<nat, int>, h: Host, c: nat, now: int, ago: int) {
    c in s.loc && s.loc[c] == InIdle(h) && c in at && now - at[c] <= ago
  }

  /** What a goroutine that tries on an open pool becomes. */
  ghost predicate Decided(s: Sys, at: map<nat, int>, h: Host, now: int, st: Goroutine) {
    st.host == h
    && match st
       case Holding(_, c) => IdleSince(s, at, h, c, now, s.cfg.idleTTL) && IdleSince(s, at, h, c, now, s.cfg.noopAfter)
       case Pinging(_, c) => IdleSince(s, at, h, c, now, s.cfg.idleTTL) && !IdleSince(s, at, h, c, now, s.cfg.noopAfter)
       case Dialing(_) =>
         Users(s, h) < s.cfg.maxPerHost && forall c: nat :: !IdleSince(s, at, h, c, now, s.cfg.idleTTL)
       case Parked(_, _, token) =>
         !token && Users(s, h) >= s.cfg.maxPerHost && forall c: nat :: !IdleSince(s, at, h, c, now, s.cfg.idleTTL)
       case Trying(_, _) => false
  }

  lemma FoundDecides(s: Sys, g: nat, now: int, at: map<nat, int>)
    requires Inv(s) && AllDated(s, at) && g in s.gs && s.gs[g].Trying? && !s.closed
    requires ScanIdle(HostOf(s.hosts, s.gs[g].host).idle, now, s.cfg.idleTTL).found.Some?
    ensures var s' := StepTry(s, g, now); g in s'.gs && Decided(s, at, s.gs[g].host, now, s'.gs[g])
  {
    var h := s.gs[g].host;
    var idle := HostOf(s.hosts, h).idle;
    var sc := ScanIdle(idle, now, s.cfg.idleTTL);
    ScanShape(idle, now, s.cfg.idleTTL);
    assert sc.found.value in idle && Dated(s, at, h) && IdlePlaced(s, h);
    assert Conns(idle)[|sc.idle|] == sc.found.value.conn;
  }

  lemma NoneFound(s: Sys, h: Host, now: int, at: map<nat, int>, c: nat)
    requires Inv(s) && AllDated(s, at) && ScanIdle(HostOf(s.hosts, h).idle, now, s.cfg.idleTTL).found.None?
    ensures !IdleSince(s, at, h, c, now, s.cfg.idleTTL)
  {
    var idle := HostOf(s.hosts, h).idle;
    ScanShape(idle, now, s.cfg.idleTTL);
    assert Dated(s, at, h) && IdlePlaced(s, h);
    if c in s.loc && s.loc[c] == InIdle(h) {
      var i :| 0 <= i < |idle| && Conns(idle)[i] == c;
      assert idle[i] in idle;
      var d := ScanIdle(idle, now, s.cfg.idleTTL).dropped;
      assert d[|idle| - 1 - i] == idle[i].conn && now - idle[|idle| - 1 - (|idle| - 1 - i)].enqueue > s.cfg.idleTTL;
    }
  }

  /** In every reachable state of an open pool, a goroutine that tries takes an idle connection of the host if and
      only if one was released within the time to live. It gets it at once if that was no longer ago than the
      NOOP limit, and pings it first otherwise. Without one it dials if a slot is free, and parks if none is. */
  lemma TryDecides(s0: Sys, ls: seq<Label>, g: nat, now: int)
    requires Init(s0) && Run(s0, ls) && Enabled(Exec(s0, ls), Try(g, now)) && !Exec(s0, ls).closed
    ensures var s, s' := Exec(s0, ls), Next(Exec(s0, ls), Try(g, now));
            g in s'.gs && Decided(s, LastReleases(s0, ls, map[]), s.gs[g].host, now, s'.gs[g])
  {
    var s, at := Exec(s0, ls), LastReleases(s0, ls, map[]);
    InitInv(s0);
    RunKeepsInv(s0, ls);
    RunDates(s0, ls, map[]);
    var h := s.gs[g].host;
    if ScanIdle(HostOf(s.hosts, h).idle, now, s.cfg.idleTTL).found.Some? {
      FoundDecides(s, g, now, at);
    } else {
      forall c: nat ensures !IdleSince(s, at, h, c, now, s.cfg.idleTTL) {
        NoneFound(s, h, now, at, c);
      }
      assert Counted(s, h);
    }
  }
}
