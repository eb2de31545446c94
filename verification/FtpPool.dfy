/**
 * The per-host FTP connection pool: what each section under the mutex does to a host's entry, and
 * the pool object whose methods are those sections.
 */
module FtpPool {
  import opened Common

  /** A one-slot waiter channel: the goroutine that made it, and which of its channels it is. */
  datatype Chan = Chan(owner: nat, serial: nat)

  datatype Host = Host(address: string)

  datatype IdleEntry = IdleEntry(conn: nat, enqueue: int, lastUse: int)

  datatype HostPool = HostPool(idle: seq<IdleEntry>, inUse: int, waiters: seq<Chan>)

  const EMPTY_HOST := HostPool([], 0, [])

  /** Only positive values: the constructor replaces the others by defaults. */
  datatype Config = Config(maxPerHost: nat, idleTTL: int, noopAfter: int)

  function Normalized(maxPerHost: int, idleTTL: int, noopAfter: int): (c: Config)
    ensures c.maxPerHost > 0 && c.idleTTL > 0 && c.noopAfter > 0
  {
    Config(if maxPerHost <= 0 then 4 else maxPerHost,
           if idleTTL <= 0 then 300_000_000_000 else idleTTL,
           if noopAfter <= 0 then 60_000_000_000 else noopAfter)
  }

  /** The pool's entry for a host, made on first use. */
  function HostOf(hosts: map<Host, HostPool>, host: Host): HostPool {
    if host in hosts then hosts[host] else EMPTY_HOST
  }

  // ---- taking an idle connection ---------------------------------------------

  /** What the scan leaves: the remaining entries, the connections it quit, and its find. */
  datatype Scan = Scan(idle: seq<IdleEntry>, dropped: seq<nat>, found: Option<IdleEntry>)

  /** From the youngest entry down, quitting expired ones until a live one turns up. */
  function ScanIdle(idle: seq<IdleEntry>, now: int, ttl: int): Scan {
    if |idle| == 0 then Scan([], [], None)
    else
      var ie, rest := idle[|idle| - 1], idle[..|idle| - 1];
      if now - ie.enqueue > ttl then
        var s := ScanIdle(rest, now, ttl);
        s.(dropped := [ie.conn] + s.dropped)
      else Scan(rest, [], Some(ie))
  }

  /** The scan takes a suffix off: the entries over their time to live, from the end, and before them the
      find, which is within it. */
  lemma {:induction false} ScanShape(idle: seq<IdleEntry>, now: int, ttl: int)
    ensures var s := ScanIdle(idle, now, ttl);
            var kept := |s.idle| + (if s.found.Some? then 1 else 0);
            && kept <= |idle| && s.idle == idle[..|s.idle|]
            && (s.found.Some? ==> idle[|s.idle|] == s.found.value)
            && (s.found.None? ==> s.idle == [])
            && |s.dropped| == |idle| - kept
            && (forall i | 0 <= i < |s.dropped| ::
                  && s.dropped[i] == idle[|idle| - 1 - i].conn
                  && now - idle[|idle| - 1 - i].enqueue > ttl)
            && (s.found.Some? ==> now - s.found.value.enqueue <= ttl)
  {
    if |idle| > 0 && now - idle[|idle| - 1].enqueue > ttl {
      var rest := idle[..|idle| - 1];
      ScanShape(rest, now, ttl);
      var s := ScanIdle(idle, now, ttl);
      forall i | 0 <= i < |s.dropped|
        ensures s.dropped[i] == idle[|idle| - 1 - i].conn && now - idle[|idle| - 1 - i].enqueue > ttl
      {
        if i > 0 {
          assert s.dropped[i] == ScanIdle(rest, now, ttl).dropped[i - 1] == rest[|rest| - 1 - (i - 1)].conn;
        }
      }
    }
  }

  datatype Decision = PoolClosed | Take(conn: nat, needsPing: bool) | Dial | Park

  datatype Tried = Tried(hp: HostPool, dropped: seq<nat>, decision: Decision)

  /** The locked section of one round of Acquire, on an open pool. */
  function TryAcquire(cfg: Config, hp: HostPool, now: int, ch: Chan): Tried {
    var s := ScanIdle(hp.idle, now, cfg.idleTTL);
    match s.found
    case Some(ie) =>
      Tried(HostPool(s.idle, hp.inUse + 1, hp.waiters), s.dropped, Take(ie.conn, now - ie.lastUse > cfg.noopAfter))
    case None =>
      if hp.inUse < cfg.maxPerHost then
        Tried(HostPool([], hp.inUse + 1, hp.waiters), s.dropped, Dial)
      else
        Tried(HostPool([], hp.inUse, hp.waiters + [ch]), s.dropped, Park)
  }

  // ---- waking and giving back ----------------------------------------------------

  /** wakeOneWaiter: the entry afterwards, and the channel that is sent the token. */
  function WakeOne(hp: HostPool): (HostPool, Option<Chan>) {
    if |hp.waiters| > 0 then (hp.(waiters := hp.waiters[1..]), Some(hp.waiters[0])) else (hp, None)
  }

  /** A slot is given up without its connection (dial failure, ping failure). */
  function FreeSlot(hp: HostPool): (HostPool, Option<Chan>) {
    WakeOne(hp.(inUse := hp.inUse - 1))
  }

  /** release: to idle, or quit when broken or closed. */
  function GiveBack(hp: HostPool, conn: nat, keep: bool, now: int): (HostPool, Option<Chan>) {
    WakeOne(HostPool(if keep then hp.idle + [IdleEntry(conn, now, now)] else hp.idle, hp.inUse - 1, hp.waiters))
  }

  /** The first position of `ch` among the waiters. */
  function IndexOf(waiters: seq<Chan>, ch: Chan): (i: nat)
    ensures i <= |waiters|
    ensures i < |waiters| ==> waiters[i] == ch
    ensures forall j | 0 <= j < i :: waiters[j] != ch
  {
    if |waiters| == 0 || waiters[0] == ch then 0 else 1 + IndexOf(waiters[1..], ch)
  }

  /** The cancelled branch of Acquire: leave the queue, or pass the token on when already popped. */
  function Abandon(hp: HostPool, ch: Chan): (HostPool, Option<Chan>) {
    var i := IndexOf(hp.waiters, ch);
    if i < |hp.waiters| then (hp.(waiters := hp.waiters[..i] + hp.waiters[i + 1..]), None)
    else WakeOne(hp)
  }

  /** The connections quit by Close when it visits the hosts in the given order. */
  function ClosedConns(hosts: map<Host, HostPool>, order: seq<Host>): seq<nat> {
    if |order| == 0 then []
    else ClosedConns(hosts, order[..|order| - 1]) + Conns(HostOf(hosts, order[|order| - 1]).idle)
  }

  function Conns(idle: seq<IdleEntry>): seq<nat> {
    seq(|idle|, i requires 0 <= i < |idle| => idle[i].conn)
  }

  /** Every idle list cleared, but for the hosts still to be visited. */
  function Emptied(hosts: map<Host, HostPool>, pending: set<Host>): map<Host, HostPool> {
    map h | h in hosts :: if h in pending then hosts[h] else hosts[h].(idle := [])
  }

  /** The hosts not among the first `i` of the order. */
  ghost function Unvisited(hosts: map<Host, HostPool>, order: seq<Host>, i: nat): set<Host>
    requires i <= |order|
  {
    hosts.Keys - SeqSet(order[..i])
  }

  lemma UnvisitedStep(hosts: map<Host, HostPool>, order: seq<Host>, i: nat)
    requires i < |order| && NoDup(order) && SeqSet(order) == hosts.Keys
    ensures order[i] in Unvisited(hosts, order, i)
    ensures Unvisited(hosts, order, i + 1) == Unvisited(hosts, order, i) - {order[i]}
  {
  }

  lemma EmptiedStep(hosts: map<Host, HostPool>, pending: set<Host>, h: Host)
    requires h in pending && pending <= hosts.Keys
    ensures var m := Emptied(hosts, pending);
            h in m && m[h] == hosts[h] && m[h := m[h].(idle := [])] == Emptied(hosts, pending - {h})
  {
  }

  lemma ClosedConnsStep(logged: seq<nat>, hosts: map<Host, HostPool>, order: seq<Host>, i: nat)
    requires i < |order|
    ensures logged + ClosedConns(hosts, order[..i + 1])
            == logged + ClosedConns(hosts, order[..i]) + Conns(HostOf(hosts, order[i]).idle)
  {
    assert order[..i + 1][..i] == order[..i];
  }

  lemma CloseEnds(hosts: map<Host, HostPool>, order: seq<Host>)
    requires SeqSet(order) == hosts.Keys
    ensures Emptied(hosts, Unvisited(hosts, order, 0)) == hosts
    ensures Unvisited(hosts, order, |order|) == {} && order[..|order|] == order
  {
  }

  /** Iteration over a map: its keys, in some order. */
  method KeysInSomeOrder(keys: set<Host>) returns (order: seq<Host>)
    ensures NoDup(order) && SeqSet(order) == keys
  {
    order := [];
    var pending := keys;
    while pending != {}
      invariant pending <= keys && NoDup(order) && SeqSet(order) == keys - pending
      decreases |pending|
    {
      var h :| h in pending;
      SeqSetAppend(order, h);
      order := order + [h];
      pending := pending - {h};
    }
  }

  /** The pool object. `quit` is the log of connections closed, `sent` of tokens sent. */
  class Pool {
    const cfg: Config
    var hosts: map<Host, HostPool>
    var closed: bool
    var quit: seq<nat>
    var sent: seq<Chan>

    constructor (maxPerHost: int, idleTTL: int, noopAfter: int)
      ensures cfg.maxPerHost == (if maxPerHost <= 0 then 4 else maxPerHost)
      ensures cfg.idleTTL == (if idleTTL <= 0 then 300_000_000_000 else idleTTL)
      ensures cfg.noopAfter == (if noopAfter <= 0 then 60_000_000_000 else noopAfter)
      ensures hosts == map[] && !closed && quit == [] && sent == []
    {
      cfg := Normalized(maxPerHost, idleTTL, noopAfter);
      hosts, closed, quit, sent := map[], false, [], [];
    }

    method AcquireRound(host: Host, now: int, ch: Chan) returns (d: Decision)
      modifies this`hosts, this`quit
      ensures closed ==> d == PoolClosed && hosts == old(hosts) && quit == old(quit)
      ensures !closed ==>
                var t := TryAcquire(cfg, HostOf(old(hosts), host), now, ch);
                d == t.decision && hosts == old(hosts)[host := t.hp] && quit == old(quit) + t.dropped
    {
      if closed {
        return PoolClosed;
      }
      var hp := HostOf(hosts, host);
      var idle := hp.idle;
      var found: Option<IdleEntry> := None;
      ghost var full := ScanIdle(idle, now, cfg.idleTTL);
      ghost var logged := quit;
      while |idle| > 0 && found.None?
        invariant found.None? ==>
                    var s := ScanIdle(idle, now, cfg.idleTTL);
                    s.idle == full.idle && s.found == full.found && quit + s.dropped == logged + full.dropped
        invariant found.Some? ==> idle == full.idle && found == full.found && quit == logged + full.dropped
        invariant hosts == old(hosts)
        decreases |idle|, found.None?
      {
        var ie := idle[|idle| - 1];
        idle := idle[..|idle| - 1];
        if now - ie.enqueue > cfg.idleTTL {
          quit := quit + [ie.conn];
        } else {
          found := Some(ie);
        }
      }
      if found.Some? {
        hosts := hosts[host := HostPool(idle, hp.inUse + 1, hp.waiters)];
        return Take(found.value.conn, now - found.value.lastUse > cfg.noopAfter);
      }
      if hp.inUse < cfg.maxPerHost {
        hosts := hosts[host := HostPool(idle, hp.inUse + 1, hp.waiters)];
        return Dial;
      }
      hosts := hosts[host := HostPool(idle, hp.inUse, hp.waiters + [ch])];
      return Park;
    }

    method WakeOneWaiter(host: Host)
      requires host in hosts
      modifies this`hosts, this`sent
      ensures var w := WakeOne(old(hosts)[host]);
              hosts == old(hosts)[host := w.0] && sent == old(sent) + (if w.1.Some? then [w.1.value] else [])
    {
      var hp := hosts[host];
      if |hp.waiters| > 0 {
        sent := sent + [hp.waiters[0]];
        hosts := hosts[host := hp.(waiters := hp.waiters[1..])];
      } else {
        assert hosts == hosts[host := hp];
      }
    }

    method FreeSlotAfterFailure(host: Host)
      requires host in hosts
      modifies this`hosts, this`sent
      ensures var w := FreeSlot(old(hosts)[host]);
              hosts == old(hosts)[host := w.0] && sent == old(sent) + (if w.1.Some? then [w.1.value] else [])
    {
      hosts := hosts[host := hosts[host].(inUse := hosts[host].inUse - 1)];
      WakeOneWaiter(host);
    }

    method Release(host: Host, conn: nat, broken: bool, now: int)
      modifies this`hosts, this`sent, this`quit
      ensures host !in old(hosts) ==> hosts == old(hosts) && sent == old(sent) && quit == old(quit) + [conn]
      ensures host in old(hosts) ==>
                var keep := !broken && !closed;
                var w := GiveBack(old(hosts)[host], conn, keep, now);
                && hosts == old(hosts)[host := w.0]
                && sent == old(sent) + (if w.1.Some? then [w.1.value] else [])
                && quit == old(quit) + (if keep then [] else [conn])
    {
      if host !in hosts {
        quit := quit + [conn];
        return;
      }
      var hp := hosts[host];
      hp := hp.(inUse := hp.inUse - 1);
      if broken || closed {
        quit := quit + [conn];
      } else {
        hp := hp.(idle := hp.idle + [IdleEntry(conn, now, now)]);
      }
      hosts := hosts[host := hp];
      WakeOneWaiter(host);
    }

    /** The ctx.Done branch: evict the waiter, or drain and forward its token. */
    method AbandonWait(host: Host, ch: Chan)
      requires host in hosts
      modifies this`hosts, this`sent
      ensures var w := Abandon(old(hosts)[host], ch);
              hosts == old(hosts)[host := w.0] && sent == old(sent) + (if w.1.Some? then [w.1.value] else [])
    {
      var hp := hosts[host];
      var i := 0;
      while i < |hp.waiters| && hp.waiters[i] != ch
        invariant i <= |hp.waiters| && forall j | 0 <= j < i :: hp.waiters[j] != ch
      {
        i := i + 1;
      }
      if i < |hp.waiters| {
        hosts := hosts[host := hp.(waiters := hp.waiters[..i] + hp.waiters[i + 1..])];
      } else {
        WakeOneWaiter(host);
      }
    }

    method Close() returns (order: seq<Host>)
      modifies this`hosts, this`closed, this`quit
      ensures closed && hosts == Emptied(old(hosts), {})
      ensures NoDup(order) && SeqSet(order) == old(hosts).Keys
      ensures quit == old(quit) + ClosedConns(old(hosts), order)
    {
      closed := true;
      ghost var was := hosts;
      ghost var logged := quit;
      order := KeysInSomeOrder(hosts.Keys);
      CloseEnds(hosts, order);
      for i := 0 to |order|
        invariant closed && hosts == Emptied(was, Unvisited(was, order, i))
        invariant quit == logged + ClosedConns(was, order[..i])
      {
        UnvisitedStep(was, order, i);
        EmptiedStep(was, Unvisited(was, order, i), order[i]);
        ClosedConnsStep(logged, was, order, i);
        CloseHost(order[i]);
      }
    }

    method CloseHost(h: Host)
      requires h in hosts
      modifies this`hosts, this`quit
      ensures hosts == old(hosts)[h := old(hosts)[h].(idle := [])] && quit == old(quit) + Conns(old(hosts)[h].idle)
    {
      QuitIdle(hosts[h].idle);
      hosts := hosts[h := hosts[h].(idle := [])];
    }

    method QuitIdle(idle: seq<IdleEntry>)
      modifies this`quit
      ensures quit == old(quit) + Conns(idle)
    {
      for i := 0 to |idle|
        invariant quit == old(quit) + Conns(idle[..i])
      {
        quit := quit + [idle[i].conn];
        assert Conns(idle[..i + 1]) == Conns(idle[..i]) + [idle[i].conn];
      }
      assert idle[..|idle|] == idle;
    }
  }

  /** A connection handed to a caller: it goes back to its pool at most once. */
  class PooledConn {
    const host: Host
    const pool: Pool
    var conn: Option<nat>

    constructor (pool: Pool, host: Host, conn: nat)
      ensures this.pool == pool && this.host == host && this.conn == Some(conn)
    {
      this.pool, this.host, this.conn := pool, host, Some(conn);
    }

    method Release(broken: bool, now: int)
      modifies this`conn, pool`hosts, pool`sent, pool`quit
      ensures conn.None?
      ensures old(conn).None? ==>
                pool.hosts == old(pool.hosts) && pool.sent == old(pool.sent) && pool.quit == old(pool.quit)
      ensures old(conn).Some? && host !in old(pool.hosts) ==>
                && pool.hosts == old(pool.hosts) && pool.sent == old(pool.sent)
                && pool.quit == old(pool.quit) + [old(conn).value]
      ensures old(conn).Some? && host in old(pool.hosts) ==>
                var keep := !broken && !pool.closed;
                var w := GiveBack(old(pool.hosts)[host], old(conn).value, keep, now);
                && pool.hosts == old(pool.hosts)[host := w.0]
                && pool.sent == old(pool.sent) + (if w.1.Some? then [w.1.value] else [])
                && pool.quit == old(pool.quit) + (if keep then [] else [old(conn).value])
    {
      if conn.None? {
        return;
      }
      pool.Release(host, conn.value, broken, now);
      conn := None;
    }
  }
}
