/**
 * The pool in use: any number of goroutines, each in some phase of Acquire or holding a
 * connection. A step is one section under the mutex, one channel operation, or the end of a dial
 * or of a NOOP, both of which run outside the mutex. `loc` is a history variable.
 */
module FtpPoolSystem {
  import opened Common
  import opened FtpPool

  datatype Goroutine =
    | Trying(host: Host, woken: bool)           // about to take the mutex; woken: it consumed a token
    | Parked(host: Host, ch: Chan, token: bool) // in the select; token: one is in its channel
    | Dialing(host: Host)
    | Pinging(host: Host, conn: nat)
    | Holding(host: Host, conn: nat)

  datatype Loc = InIdle(host: Host) | HeldBy(g: nat) | Gone

  datatype Sys = Sys(cfg: Config, hosts: map<Host, HostPool>, closed: bool, gs: map<nat, Goroutine>,
                     chans: nat, conns: nat, quit: seq<nat>, loc: map<nat, Loc>)

  datatype Label =
    | Begin(g: nat, host: Host)
    | Try(g: nat, now: int)
    | DialOk(g: nat)
    | DialFail(g: nat, connected: bool)   // connected: dialled, but the login failed
    | PingOk(g: nat)
    | PingFail(g: nat)
    | Receive(g: nat)
    | Cancel(g: nat)
    | Release(g: nat, broken: bool, now: int)
    | Close(order: seq<Host>)

  predicate Enabled(s: Sys, l: Label) {
    match l
    case Begin(g, _) => g !in s.gs
    case Try(g, _) => g in s.gs && s.gs[g].Trying?
    case DialOk(g) => g in s.gs && s.gs[g].Dialing?
    case DialFail(g, _) => g in s.gs && s.gs[g].Dialing?
    case PingOk(g) => g in s.gs && s.gs[g].Pinging?
    case PingFail(g) => g in s.gs && s.gs[g].Pinging?
    case Receive(g) => g in s.gs && s.gs[g].Parked? && s.gs[g].token
    case Cancel(g) => g in s.gs && s.gs[g].Parked?
    case Release(g, _, _) => g in s.gs && s.gs[g].Holding?
    case Close(order) => NoDup(order) && SeqSet(order) == s.hosts.Keys
  }

  /** The send on a waiter channel: its owner, still in the select, now has a token waiting. */
  function Deliver(gs: map<nat, Goroutine>, host: Host, to: Option<Chan>): map<nat, Goroutine> {
    if to.Some? && to.value.owner in gs && gs[to.value.owner] == Parked(host, to.value, false)
    then gs[to.value.owner := Parked(host, to.value, true)]
    else gs
  }

  function Dropped(loc: map<nat, Loc>, conns: seq<nat>): map<nat, Loc> {
    map c | c in loc :: if c in conns then Gone else loc[c]
  }

  function StepTry(s: Sys, g: nat, now: int): Sys
    requires g in s.gs && s.gs[g].Trying?
  {
    if s.closed then s.(gs := s.gs - {g})
    else
      var h := s.gs[g].host;
      var t := TryAcquire(s.cfg, HostOf(s.hosts, h), now, Chan(g, s.chans));
      var s' := s.(hosts := s.hosts[h := t.hp], quit := s.quit + t.dropped, loc := Dropped(s.loc, t.dropped));
      match t.decision
      case Take(c, ping) =>
        s'.(gs := s.gs[g := if ping then Pinging(h, c) else Holding(h, c)], loc := s'.loc[c := HeldBy(g)])
      case Dial => s'.(gs := s.gs[g := Dialing(h)])
      case Park => s'.(gs := s.gs[g := Parked(h, Chan(g, s.chans), false)], chans := s.chans + 1)
      case PoolClosed => s'
  }

  /** Gives the slot of `g` back; `g` goes on as `after`, or leaves. */
  function StepFree(s: Sys, g: nat, after: Option<Goroutine>): Sys
    requires g in s.gs
  {
    var h := s.gs[g].host;
    var (hp, to) := FreeSlot(HostOf(s.hosts, h));
    var gs := if after.Some? then s.gs[g := after.value] else s.gs - {g};
    s.(hosts := s.hosts[h := hp], gs := Deliver(gs, h, to))
  }

  function StepRelease(s: Sys, g: nat, broken: bool, now: int): Sys
    requires g in s.gs && s.gs[g].Holding?
  {
    var h, c := s.gs[g].host, s.gs[g].conn;
    var keep := !broken && !s.closed;
    var (hp, to) := GiveBack(HostOf(s.hosts, h), c, keep, now);
    s.(hosts := s.hosts[h := hp], gs := Deliver(s.gs - {g}, h, to),
       quit := if keep then s.quit else s.quit + [c],
       loc := s.loc[c := if keep then InIdle(h) else Gone])
  }

  function StepCancel(s: Sys, g: nat): Sys
    requires g in s.gs && s.gs[g].Parked?
  {
    var h := s.gs[g].host;
    var (hp, to) := Abandon(HostOf(s.hosts, h), s.gs[g].ch);
    s.(hosts := s.hosts[h := hp], gs := Deliver(s.gs - {g}, h, to))
  }

  /** Connection `c` is closed. */
  function Quit(s: Sys, c: nat): Sys {
    s.(quit := s.quit + [c], loc := s.loc[c := Gone])
  }

  function StepClose(s: Sys, order: seq<Host>): Sys
    requires SeqSet(order) == s.hosts.Keys
  {
    var gone := ClosedConns(s.hosts, order);
    s.(closed := true, hosts := Emptied(s.hosts, {}), quit := s.quit + gone, loc := Dropped(s.loc, gone))
  }

  function Next(s: Sys, l: Label): Sys
    requires Enabled(s, l)
  {
    match l
    case Begin(g, h) => s.(gs := s.gs[g := Trying(h, false)])
    case Try(g, now) => StepTry(s, g, now)
    case DialOk(g) =>
      s.(gs := s.gs[g := Holding(s.gs[g].host, s.conns)], conns := s.conns + 1, loc := s.loc[s.conns := HeldBy(g)])
    case DialFail(g, connected) =>
      StepFree(if connected then Quit(s, s.conns).(conns := s.conns + 1) else s, g, None)
    case PingOk(g) => s.(gs := s.gs[g := Holding(s.gs[g].host, s.gs[g].conn)])
    case PingFail(g) => StepFree(Quit(s, s.gs[g].conn), g, Some(Trying(s.gs[g].host, false)))
    case Receive(g) => s.(gs := s.gs[g := Trying(s.gs[g].host, true)])
    case Cancel(g) => StepCancel(s, g)
    case Release(g, broken, now) => StepRelease(s, g, broken, now)
    case Close(order) => StepClose(s, order)
  }

  predicate Init(s: Sys) {
    s.cfg.maxPerHost > 0 && s.hosts == map[] && !s.closed && s.gs == map[] && s.chans == 0 && s.conns == 0
    && s.quit == [] && s.loc == map[]
  }

  ghost predicate Run(s: Sys, ls: seq<Label>)
    decreases |ls|
  {
    |ls| > 0 ==> Enabled(s, ls[0]) && Run(Next(s, ls[0]), ls[1..])
  }

  ghost function Exec(s: Sys, ls: seq<Label>): Sys
    requires Run(s, ls)
    decreases |ls|
  {
    if |ls| == 0 then s else Exec(Next(s, ls[0]), ls[1..])
  }

  // ---- the invariant ------------------------------------------------------------

  predicate IsUser(st: Goroutine, h: Host) {
    (st.Dialing? || st.Pinging? || st.Holding?) && st.host == h
  }

  /** Woken and not yet retried: the token is in its channel, or it is on its way to the mutex. */
  predicate IsWoken(st: Goroutine, h: Host) {
    ((st.Trying? && st.woken) || (st.Parked? && st.token)) && st.host == h
  }

  ghost function UserAt(h: Host): Goroutine -> bool {
    st => IsUser(st, h)
  }

  ghost function WokenAt(h: Host): Goroutine -> bool {
    st => IsWoken(st, h)
  }

  ghost function Users(s: Sys, h: Host): nat {
    Count(s.gs, UserAt(h))
  }

  ghost function Woken(s: Sys, h: Host): nat {
    Count(s.gs, WokenAt(h))
  }

  /** Slots are conserved, the cap is hard, and while the pool is open no wake-up is lost. */
  ghost predicate Counted(s: Sys, h: Host) {
    var hp := HostOf(s.hosts, h);
    && hp.inUse == Users(s, h)
    && hp.inUse + |hp.idle| <= s.cfg.maxPerHost
    && (!s.closed && |hp.waiters| > 0 ==> s.cfg.maxPerHost - hp.inUse <= Woken(s, h))
    && (s.closed ==> hp.idle == [])
  }

  ghost predicate QueueOk(s: Sys, h: Host) {
    var ws := HostOf(s.hosts, h).waiters;
    && NoDup(ws)
    && (forall i | 0 <= i < |ws| :: ws[i].owner in s.gs && s.gs[ws[i].owner] == Parked(h, ws[i], false))
  }

  /** A parked goroutine is queued until its token is sent, and not after. */
  ghost predicate ParkedOk(s: Sys, g: nat)
    requires g in s.gs
  {
    var st := s.gs[g];
    st.Parked? ==> && st.ch.owner == g
                   && st.host in s.hosts
                   && (st.token <==> st.ch !in HostOf(s.hosts, st.host).waiters)
  }

  ghost predicate Queued(s: Sys) {
    && (forall h :: QueueOk(s, h))
    && (forall g | g in s.gs :: ParkedOk(s, g))
  }

  ghost predicate AllCounted(s: Sys) {
    forall h :: Counted(s, h)
  }

  // ---- counting -------------------------------------------------------------------

  function One(b: bool): int {
    if b then 1 else 0
  }

  lemma SetCounts(gs: map<nat, Goroutine>, g: nat, st: Goroutine, h: Host)
    ensures Count(gs[g := st], UserAt(h))
            == Count(gs, UserAt(h)) - One(g in gs && IsUser(gs[g], h)) + One(IsUser(st, h))
    ensures Count(gs[g := st], WokenAt(h))
            == Count(gs, WokenAt(h)) - One(g in gs && IsWoken(gs[g], h)) + One(IsWoken(st, h))
  {
    CountUpdate(gs, g, st, UserAt(h));
    CountUpdate(gs, g, st, WokenAt(h));
  }

  lemma RemoveCounts(gs: map<nat, Goroutine>, g: nat, h: Host)
    requires g in gs
    ensures Count(gs - {g}, UserAt(h)) == Count(gs, UserAt(h)) - One(IsUser(gs[g], h))
    ensures Count(gs - {g}, WokenAt(h)) == Count(gs, WokenAt(h)) - One(IsWoken(gs[g], h))
  {
    CountRemove(gs, g, UserAt(h));
    CountRemove(gs, g, WokenAt(h));
  }

  /** A delivered token makes one more woken goroutine of its host, and no user. */
  lemma DeliverCounts(gs: map<nat, Goroutine>, host: Host, to: Option<Chan>, h: Host)
    requires to.Some? ==> to.value.owner in gs && gs[to.value.owner] == Parked(host, to.value, false)
    ensures Count(Deliver(gs, host, to), UserAt(h)) == Count(gs, UserAt(h))
    ensures Count(Deliver(gs, host, to), WokenAt(h)) == Count(gs, WokenAt(h)) + One(to.Some? && h == host)
  {
    if to.Some? {
      SetCounts(gs, to.value.owner, Parked(host, to.value, true), h);
    }
  }

  // ---- every step keeps the counts ---------------------------------------------------

  lemma TryCountsHere(s: Sys, g: nat, now: int)
    requires g in s.gs && s.gs[g].Trying? && !s.closed && Counted(s, s.gs[g].host)
    ensures Counted(StepTry(s, g, now), s.gs[g].host)
  {
    var h := s.gs[g].host;
    ScanShape(HostOf(s.hosts, h).idle, now, s.cfg.idleTTL);
    SetCounts(s.gs, g, StepTry(s, g, now).gs[g], h);
  }

  lemma TryCounts(s: Sys, g: nat, now: int, k: Host)
    requires g in s.gs && s.gs[g].Trying? && Counted(s, k) && Counted(s, s.gs[g].host)
    ensures Counted(StepTry(s, g, now), k)
  {
    if s.closed {
      RemoveCounts(s.gs, g, k);
    } else if k == s.gs[g].host {
      TryCountsHere(s, g, now);
    } else {
      SetCounts(s.gs, g, StepTry(s, g, now).gs[g], k);
    }
  }

  /** The waiter popped by a section that gives up the slot or the place of `g` is still parked. */
  lemma PoppedIsParked(s: Sys, g: nat, h: Host, gs: map<nat, Goroutine>)
    requires Queued(s) && g in s.gs && |HostOf(s.hosts, h).waiters| > 0
    requires gs == s.gs - {g} || (g in gs && gs == s.gs[g := gs[g]])
    requires s.gs[g].Parked? ==> s.gs[g].ch !in HostOf(s.hosts, h).waiters
    ensures var ch := HostOf(s.hosts, h).waiters[0]; ch.owner in gs && gs[ch.owner] == Parked(h, ch, false)
  {
    assert QueueOk(s, h);
    assert ParkedOk(s, g);
    var ch := HostOf(s.hosts, h).waiters[0];
    assert ch.owner in s.gs && s.gs[ch.owner] == Parked(h, ch, false);
  }

  lemma FreeCounts(s: Sys, g: nat, after: Option<Goroutine>, k: Host)
    requires AllCounted(s) && Queued(s) && g in s.gs && (s.gs[g].Dialing? || s.gs[g].Pinging?)
    requires after.Some? ==> after.value == Trying(s.gs[g].host, false)
    ensures Counted(StepFree(s, g, after), k)
  {
    var h := s.gs[g].host;
    var hp := HostOf(s.hosts, h);
    var gs := if after.Some? then s.gs[g := after.value] else s.gs - {g};
    assert Counted(s, k) && Counted(s, h);
    if after.Some? {
      SetCounts(s.gs, g, after.value, k);
    } else {
      RemoveCounts(s.gs, g, k);
    }
    if |hp.waiters| > 0 {
      PoppedIsParked(s, g, h, gs);
    }
    DeliverCounts(gs, h, FreeSlot(hp).1, k);
  }

  lemma ReleaseCounts(s: Sys, g: nat, broken: bool, now: int, k: Host)
    requires AllCounted(s) && Queued(s) && g in s.gs && s.gs[g].Holding?
    ensures Counted(StepRelease(s, g, broken, now), k)
  {
    var h := s.gs[g].host;
    var hp := HostOf(s.hosts, h);
    assert Counted(s, k) && Counted(s, h);
    RemoveCounts(s.gs, g, k);
    if |hp.waiters| > 0 {
      PoppedIsParked(s, g, h, s.gs - {g});
    }
    DeliverCounts(s.gs - {g}, h, GiveBack(hp, s.gs[g].conn, !broken && !s.closed, now).1, k);
  }

  lemma CancelCounts(s: Sys, g: nat, k: Host)
    requires AllCounted(s) && Queued(s) && g in s.gs && s.gs[g].Parked?
    ensures Counted(StepCancel(s, g), k)
  {
    var h, ch := s.gs[g].host, s.gs[g].ch;
    var hp := HostOf(s.hosts, h);
    assert Counted(s, k) && Counted(s, h) && ParkedOk(s, g);
    RemoveCounts(s.gs, g, k);
    if IndexOf(hp.waiters, ch) < |hp.waiters| {
      assert ch in hp.waiters;
    } else {
      assert ch !in hp.waiters;
      if |hp.waiters| > 0 {
        PoppedIsParked(s, g, h, s.gs - {g});
      }
    }
    DeliverCounts(s.gs - {g}, h, Abandon(hp, ch).1, k);
  }

  // ---- every step keeps the waiter queue -------------------------------------------

  /** A goroutine that is not queued anywhere changes state or leaves. */
  lemma UnqueuedMoves(s: Sys, s': Sys, g: nat)
    requires Queued(s)
    requires g in s.gs && s.gs[g].Parked? ==> s.gs[g].token
    requires forall h :: HostOf(s'.hosts, h).waiters == HostOf(s.hosts, h).waiters
    requires s.hosts.Keys <= s'.hosts.Keys
    requires s'.gs == s.gs - {g} || (g in s'.gs && !s'.gs[g].Parked? && s'.gs == s.gs[g := s'.gs[g]])
    ensures Queued(s')
  {
    forall h ensures QueueOk(s', h) {
      assert QueueOk(s, h);
    }
    forall x | x in s'.gs ensures ParkedOk(s', x) {
      if x != g {
        assert ParkedOk(s, x);
      }
    }
  }

  lemma ParkQueues(s: Sys, s': Sys, g: nat, h: Host)
    requires Queued(s) && g in s.gs && s.gs[g].Trying?
    requires s'.gs == s.gs[g := Parked(h, Chan(g, s.chans), false)]
    requires s'.hosts.Keys == s.hosts.Keys + {h}
    requires HostOf(s'.hosts, h).waiters == HostOf(s.hosts, h).waiters + [Chan(g, s.chans)]
    requires forall k | k != h :: HostOf(s'.hosts, k) == HostOf(s.hosts, k)
    ensures Queued(s')
  {
    forall k ensures QueueOk(s', k) {
      assert QueueOk(s, k);
    }
    forall x | x in s'.gs ensures ParkedOk(s', x) {
      if x != g {
        assert ParkedOk(s, x);
      }
      assert x == g ==> HostOf(s'.hosts, h).waiters[|HostOf(s.hosts, h).waiters|] == Chan(g, s.chans);
    }
  }

  lemma TryQueues(s: Sys, g: nat, now: int)
    requires Queued(s) && g in s.gs && s.gs[g].Trying?
    ensures Queued(StepTry(s, g, now))
  {
    var s' := StepTry(s, g, now);
    var h := s.gs[g].host;
    if s.closed {
      UnqueuedMoves(s, s', g);
    } else {
      var t := TryAcquire(s.cfg, HostOf(s.hosts, h), now, Chan(g, s.chans));
      if t.decision.Park? {
        ParkQueues(s, s', g, h);
      } else {
        UnqueuedMoves(s, s', g);
      }
    }
  }

  /** The head of the queue is popped and sent its token; `s` is already without the mover. */
  lemma WakeQueues(s: Sys, s': Sys, h: Host)
    requires Queued(s) && h in s.hosts
    requires var (hp, to) := WakeOne(HostOf(s.hosts, h));
             s'.gs == Deliver(s.gs, h, to) && HostOf(s'.hosts, h).waiters == hp.waiters
    requires s'.hosts.Keys == s.hosts.Keys
    requires forall k | k != h :: HostOf(s'.hosts, k).waiters == HostOf(s.hosts, k).waiters
    ensures Queued(s')
  {
    assert QueueOk(s, h);
    forall k ensures QueueOk(s', k) {
      assert QueueOk(s, k);
    }
    forall x | x in s'.gs ensures ParkedOk(s', x) {
      assert ParkedOk(s, x);
      PoppedOnly(HostOf(s.hosts, h).waiters);
    }
  }

  lemma PoppedOnly(ws: seq<Chan>)
    requires NoDup(ws)
    ensures |ws| > 0 ==> forall c: Chan :: c in ws[1..] <==> c in ws && c != ws[0]
  {
  }

  lemma FreeQueues(s: Sys, g: nat, after: Option<Goroutine>)
    requires Queued(s) && g in s.gs && !s.gs[g].Parked? && s.gs[g].host in s.hosts
    requires after.Some? ==> !after.value.Parked?
    ensures Queued(StepFree(s, g, after))
  {
    var mid := s.(gs := if after.Some? then s.gs[g := after.value] else s.gs - {g});
    UnqueuedMoves(s, mid, g);
    WakeQueues(mid, StepFree(s, g, after), s.gs[g].host);
  }

  lemma ReleaseQueues(s: Sys, g: nat, broken: bool, now: int)
    requires Queued(s) && g in s.gs && s.gs[g].Holding? && s.gs[g].host in s.hosts
    ensures Queued(StepRelease(s, g, broken, now))
  {
    var mid := s.(gs := s.gs - {g});
    UnqueuedMoves(s, mid, g);
    WakeQueues(mid, StepRelease(s, g, broken, now), s.gs[g].host);
  }

  lemma EvictedOnly(ws: seq<Chan>, i: nat)
    requires NoDup(ws) && i < |ws|
    ensures NoDup(ws[..i] + ws[i + 1..])
    ensures forall c: Chan :: c in ws[..i] + ws[i + 1..] <==> c in ws && c != ws[i]
  {
  }

  lemma EvictQueues(s: Sys, s': Sys, g: nat, i: nat)
    requires Queued(s) && g in s.gs && s.gs[g].Parked?
    requires var h := s.gs[g].host;
             var ws := HostOf(s.hosts, h).waiters;
             && i < |ws| && ws[i] == s.gs[g].ch && s'.gs == s.gs - {g} && s'.hosts.Keys == s.hosts.Keys
             && HostOf(s'.hosts, h).waiters == ws[..i] + ws[i + 1..]
             && (forall k | k != h :: HostOf(s'.hosts, k) == HostOf(s.hosts, k))
    ensures Queued(s')
  {
    var h := s.gs[g].host;
    assert QueueOk(s, h) && ParkedOk(s, g);
    var ws := HostOf(s.hosts, h).waiters;
    EvictedOnly(ws, i);
    forall k ensures QueueOk(s', k) {
      assert QueueOk(s, k);
      var ws' := HostOf(s'.hosts, k).waiters;
      forall j | 0 <= j < |ws'| ensures ws'[j].owner in s'.gs && s'.gs[ws'[j].owner] == Parked(k, ws'[j], false) {
        assert ws'[j] in ws';
        assert ws'[j] in HostOf(s.hosts, k).waiters;
      }
    }
    forall x | x in s'.gs ensures ParkedOk(s', x) {
      assert ParkedOk(s, x);
    }
  }

  lemma CancelQueues(s: Sys, g: nat)
    requires Queued(s) && g in s.gs && s.gs[g].Parked?
    ensures Queued(StepCancel(s, g))
  {
    var s' := StepCancel(s, g);
    var h, ch := s.gs[g].host, s.gs[g].ch;
    assert ParkedOk(s, g);
    var i := IndexOf(HostOf(s.hosts, h).waiters, ch);
    if i < |HostOf(s.hosts, h).waiters| {
      EvictQueues(s, s', g, i);
    } else {
      assert ch !in HostOf(s.hosts, h).waiters;
      var mid := s.(gs := s.gs - {g});
      UnqueuedMoves(s, mid, g);
      WakeQueues(mid, s', h);
    }
  }

  // ---- every connection is in exactly one place ----------------------------------------

  function ConnOf(st: Goroutine): Option<nat> {
    if st.Pinging? || st.Holding? then Some(st.conn) else None
  }

  ghost predicate IdlePlaced(s: Sys, h: Host) {
    var cs := Conns(HostOf(s.hosts, h).idle);
    && NoDup(cs)
    && (forall c :: c in cs <==> c in s.loc && s.loc[c] == InIdle(h))
  }

  ghost predicate HeldPlaced(s: Sys) {
    && (forall g | g in s.gs :: ConnOf(s.gs[g]).Some? ==>
          ConnOf(s.gs[g]).value in s.loc && s.loc[ConnOf(s.gs[g]).value] == HeldBy(g))
    && (forall c | c in s.loc && s.loc[c].HeldBy? :: s.loc[c].g in s.gs && ConnOf(s.gs[s.loc[c].g]) == Some(c))
  }

  ghost predicate QuitPlaced(s: Sys) {
    && NoDup(s.quit)
    && (forall c :: c in s.quit <==> c in s.loc && s.loc[c] == Gone)
  }

  ghost predicate Placed(s: Sys) {
    && (forall c :: c in s.loc <==> 0 <= c < s.conns)
    && (forall h :: IdlePlaced(s, h))
    && HeldPlaced(s) && QuitPlaced(s)
  }
}
