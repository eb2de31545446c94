/** In which order idle connections are used again and waiters are woken. */
module FtpPoolOrder {
  import opened Common
  import opened FtpPool
  import opened FtpPoolSystem
  import opened FtpPoolTheorems
  import opened FtpPoolAges

  // ---- waiters: first come, first served ---------------------------------------------------

  /** The waiters are in the order in which their channels were made. */
  ghost predicate InOrder(ws: seq<Chan>, chans: nat) {
    && (forall i | 0 <= i < |ws| :: ws[i].serial < chans)
    && (forall i, j | 0 <= i < j < |ws| :: ws[i].serial < ws[j].serial)
  }

  ghost predicate AllInOrder(s: Sys) {
    forall h :: InOrder(HostOf(s.hosts, h).waiters, s.chans)
  }

  /** What is left of the queue is in order too. */
  lemma ShorterInOrder(ws: seq<Chan>, ws': seq<Chan>, i: nat, chans: nat)
    requires InOrder(ws, chans) && i < |ws| && ws' == ws[..i] + ws[i + 1..]
    ensures InOrder(ws', chans)
  {
  }

  lemma WakeKeepsOrder(hp: HostPool, chans: nat)
    requires InOrder(hp.waiters, chans)
    ensures InOrder(WakeOne(hp).0.waiters, chans)
  {
  }

  lemma TryKeepsOrder(s: Sys, g: nat, now: int, h: Host)
    requires g in s.gs && s.gs[g].Trying? && InOrder(HostOf(s.hosts, h).waiters, s.chans)
    ensures InOrder(HostOf(StepTry(s, g, now).hosts, h).waiters, StepTry(s, g, now).chans)
  {
  }

  lemma CancelKeepsOrder(s: Sys, g: nat, h: Host)
    requires g in s.gs && s.gs[g].Parked? && InOrder(HostOf(s.hosts, h).waiters, s.chans)
    ensures InOrder(HostOf(StepCancel(s, g).hosts, h).waiters, s.chans)
  {
    var ws := HostOf(s.hosts, h).waiters;
    var i := IndexOf(ws, s.gs[g].ch);
    if h == s.gs[g].host && i < |ws| {
      ShorterInOrder(ws, ws[..i] + ws[i + 1..], i, s.chans);
    }
  }

  lemma StepKeepsOrder(s: Sys, l: Label)
    requires AllInOrder(s) && Enabled(s, l)
    ensures AllInOrder(Next(s, l))
  {
    forall h ensures InOrder(HostOf(Next(s, l).hosts, h).waiters, Next(s, l).chans) {
      var hp := HostOf(s.hosts, h);
      assert InOrder(hp.waiters, s.chans);
      match l {
        case Try(g, now) => TryKeepsOrder(s, g, now, h);
        case Cancel(g) => CancelKeepsOrder(s, g, h);
        case _ => WakeKeepsOrder(hp, s.chans);
      }
    }
  }

  lemma {:induction false} RunKeepsOrder(s: Sys, ls: seq<Label>)
    requires AllInOrder(s) && Run(s, ls)
    ensures AllInOrder(Exec(s, ls))
    decreases |ls|
  {
    if |ls| == 0 {
    } else {
      StepKeepsOrder(s, ls[0]);
      RunKeepsOrder(Next(s, ls[0]), ls[1..]);
    }
  }

  /** The step sends the goroutine its token. */
  predicate Wakes(s: Sys, l: Label, g: nat)
    requires Enabled(s, l)
  {
    && g in s.gs && s.gs[g].Parked? && !s.gs[g].token
    && g in Next(s, l).gs && Next(s, l).gs[g] == s.gs[g].(token := true)
  }

  lemma WokenIsHead(s: Sys, l: Label, g: nat)
    requires Inv(s) && Enabled(s, l) && Wakes(s, l, g)
    ensures var ws := HostOf(s.hosts, s.gs[g].host).waiters; |ws| > 0 && ws[0] == s.gs[g].ch
  {
    assert ParkedOk(s, g) && QueueOk(s, s.gs[g].host);
    assert l.g in s.gs && ParkedOk(s, l.g) && QueueOk(s, s.gs[l.g].host);
  }

  /** In every run the goroutine that is sent a token has waited for the host longest. */
  lemma LongestWaiterIsWoken(s0: Sys, ls: seq<Label>, l: Label, g: nat, x: nat)
    requires Init(s0) && Run(s0, ls) && Enabled(Exec(s0, ls), l) && Wakes(Exec(s0, ls), l, g)
    requires var s := Exec(s0, ls);
             x in s.gs && x != g && s.gs[x].Parked? && !s.gs[x].token && s.gs[x].host == s.gs[g].host
    ensures var s := Exec(s0, ls); s.gs[g].ch.serial < s.gs[x].ch.serial
  {
    var s := Exec(s0, ls);
    InitInv(s0);
    RunKeepsInv(s0, ls);
    RunKeepsOrder(s0, ls);
    WokenIsHead(s, l, g);
    assert ParkedOk(s, x) && ParkedOk(s, g) && InOrder(HostOf(s.hosts, s.gs[g].host).waiters, s.chans);
  }

  // ---- idle connections: last in, first out ------------------------------------------------------

  function TimeOf(l: Label): Option<int> {
    match l
    case Try(_, now) => Some(now)
    case Release(_, _, now) => Some(now)
    case _ => None
  }

  function Later(l: Label, t: int): int {
    if TimeOf(l).Some? then TimeOf(l).value else t
  }

  /** The clock does not go backward from t on. */
  predicate Timely(ls: seq<Label>, t: int)
    decreases |ls|
  {
    |ls| > 0 ==> t <= Later(ls[0], t) && Timely(ls[1..], Later(ls[0], t))
  }

  function Clock(ls: seq<Label>, t: int): int
    decreases |ls|
  {
    if |ls| == 0 then t else Clock(ls[1..], Later(ls[0], t))
  }

  ghost predicate Aging(idle: seq<IdleEntry>, t: int) {
    && (forall i | 0 <= i < |idle| :: idle[i].enqueue <= t)
    && (forall i, j | 0 <= i < j < |idle| :: idle[i].enqueue <= idle[j].enqueue)
  }

  ghost predicate AllAging(s: Sys, t: int) {
    forall h :: Aging(HostOf(s.hosts, h).idle, t)
  }

  lemma TryKeepsAging(s: Sys, g: nat, now: int, t: int, h: Host)
    requires g in s.gs && s.gs[g].Trying? && Aging(HostOf(s.hosts, h).idle, t) && t <= now
    ensures Aging(HostOf(StepTry(s, g, now).hosts, h).idle, now)
  {
    ScanShape(HostOf(s.hosts, s.gs[g].host).idle, now, s.cfg.idleTTL);
  }

  lemma ReleaseKeepsAging(s: Sys, g: nat, broken: bool, now: int, t: int, h: Host)
    requires g in s.gs && s.gs[g].Holding? && Aging(HostOf(s.hosts, h).idle, t) && t <= now
    ensures Aging(HostOf(StepRelease(s, g, broken, now).hosts, h).idle, now)
  {
  }

  lemma StepKeepsAging(s: Sys, l: Label, t: int)
    requires AllAging(s, t) && Enabled(s, l) && t <= Later(l, t)
    ensures AllAging(Next(s, l), Later(l, t))
  {
    forall h ensures Aging(HostOf(Next(s, l).hosts, h).idle, Later(l, t)) {
      assert Aging(HostOf(s.hosts, h).idle, t);
      match l {
        case Try(g, now) => TryKeepsAging(s, g, now, t, h);
        case Release(g, broken, now) => ReleaseKeepsAging(s, g, broken, now, t, h);
        case _ =>
      }
    }
  }

  lemma {:induction false} RunKeepsAging(s: Sys, ls: seq<Label>, t: int)
    requires AllAging(s, t) && Run(s, ls) && Timely(ls, t)
    ensures AllAging(Exec(s, ls), Clock(ls, t))
    decreases |ls|
  {
    if |ls| == 0 {
    } else {
      StepKeepsAging(s, ls[0], t);
      RunKeepsAging(Next(s, ls[0]), ls[1..], Later(ls[0], t));
    }
  }

  /** While the clock does not go backward, the idle connection taken is the one released last: no other idle
      connection of the host was released after it. */
  lemma YoungestIsTaken(s0: Sys, ls: seq<Label>, t: int, g: nat, now: int, c: nat)
    requires Init(s0) && Run(s0, ls) && Timely(ls, t) && Enabled(Exec(s0, ls), Try(g, now))
    requires var s, s' := Exec(s0, ls), Next(Exec(s0, ls), Try(g, now));
             && g in s'.gs && ConnOf(s'.gs[g]).Some?
             && c in s.loc && s.loc[c] == InIdle(s.gs[g].host)
    ensures var at, s' := LastReleases(s0, ls, map[]), Next(Exec(s0, ls), Try(g, now));
            c in at && ConnOf(s'.gs[g]).value in at && at[c] <= at[ConnOf(s'.gs[g]).value]
  {
    var s, at := Exec(s0, ls), LastReleases(s0, ls, map[]);
    InitInv(s0);
    RunKeepsInv(s0, ls);
    RunDates(s0, ls, map[]);
    RunKeepsAging(s0, ls, t);
    var h := s.gs[g].host;
    assert Dated(s, at, h) && IdlePlaced(s, h) && Aging(HostOf(s.hosts, h).idle, Clock(ls, t));
    YoungestOf(s, at, g, now, c, Clock(ls, t));
  }

  lemma YoungestOf(s: Sys, at: map<nat, int>, g: nat, now: int, c: nat, t: int)
    requires g in s.gs && s.gs[g].Trying? && Dated(s, at, s.gs[g].host) && IdlePlaced(s, s.gs[g].host)
    requires Aging(HostOf(s.hosts, s.gs[g].host).idle, t) && c in s.loc && s.loc[c] == InIdle(s.gs[g].host)
    requires g in StepTry(s, g, now).gs && ConnOf(StepTry(s, g, now).gs[g]).Some?
    ensures var taken := ConnOf(StepTry(s, g, now).gs[g]).value; c in at && taken in at && at[c] <= at[taken]
  {
    var idle := HostOf(s.hosts, s.gs[g].host).idle;
    var i :| 0 <= i < |idle| && Conns(idle)[i] == c;
    LastIsFound(idle, now, s.cfg.idleTTL);
    assert idle[i] in idle && idle[|idle| - 1] in idle;
  }

  /** In a list that is in order of age, the last entry is found, or none. */
  lemma LastIsFound(idle: seq<IdleEntry>, now: int, ttl: int)
    requires forall i, j | 0 <= i < j < |idle| :: idle[i].enqueue <= idle[j].enqueue
    ensures var sc := ScanIdle(idle, now, ttl); sc.found.Some? ==> |idle| > 0 && sc.found.value == idle[|idle| - 1]
  {
    ScanShape(idle, now, ttl);
    assert |ScanIdle(idle, now, ttl).dropped| > 0 ==> now - idle[|idle| - 1 - 0].enqueue > ttl;
  }
}
