/** What the sniffer guarantees, over every interleaving of polls, failures and source changes. */
module SnifferTheorems {
  import opened Common
  import opened Decimal
  import opened JobTable
  import opened SnifferQuery
  import opened SnifferEnqueue
  import opened Sniffer
  import opened SnifferSystem

  // ---- the keys of a row ------------------------------------------------------------------

  ghost predicate MadeFrom(e: Env, sent: set<SrcRow>, k: Key) {
    exists v | v in sent :: SpecFor(e, v).Some? && KeyOf(SpecFor(e, v).value) == k
  }

  /** The job is in the table, or was and has been deleted. */
  predicate HadJob(s: Sys, k: Key) {
    k in s.shelf.jobs || k in s.deleted
  }

  /** The jobs there ever were are those of the versions in an enqueued batch, and those of others. */
  ghost predicate JobsAccounted(e: Env, s: Sys) {
    forall k: Key :: HadJob(s, k) <==> MadeFrom(e, s.sent, k) || k in s.foreign
  }

  lemma EnqueueSends(e: Env, id: string, lag: nat, s: Sys)
    requires JobsAccounted(e, s) && Enabled(e, lag, s, EnqueueRows)
    ensures JobsAccounted(e, Next(e, id, s, EnqueueRows))
  {
    var s' := Next(e, id, s, EnqueueRows);
    var rows, specs := s.phase.rows, Specs(e, s.phase.rows);
    SpecsMembers(e, rows);
    forall k: Key ensures HadJob(s', k) <==> MadeFrom(e, s'.sent, k) || k in s'.foreign {
      assert HadJob(s', k) <==> HadJob(s, k) || k in Keys(specs);
      if k in Keys(specs) {
        var j :| j in specs && KeyOf(j) == k;
        var r :| r in rows && SpecFor(e, r) == Some(j);
        assert r in s'.sent;
      }
      if v :| v in s'.sent && SpecFor(e, v).Some? && KeyOf(SpecFor(e, v).value) == k {
        assert v in s.sent || SpecFor(e, v).value in specs;
      }
      if v :| v in s.sent && SpecFor(e, v).Some? && KeyOf(SpecFor(e, v).value) == k {
        assert v in s'.sent;
      }
    }
  }

  lemma StepKeepsAccount(e: Env, id: string, lag: nat, s: Sys, s': Sys)
    requires JobsAccounted(e, s) && Step(e, id, lag, s, s')
    ensures JobsAccounted(e, s')
  {
    var l :| Enabled(e, lag, s, l) && s' == Next(e, id, s, l);
    if l.EnqueueRows? {
      EnqueueSends(e, id, lag, s);
    } else {
      forall k: Key ensures HadJob(s', k) <==> HadJob(s, k) || (l.Foreign? && k == KeyOf(l.spec)) {
      }
    }
  }

  lemma {:induction false} RunKeepsAccount(e: Env, id: string, lag: nat, ss: seq<Sys>, n: nat)
    requires Run(e, id, lag, ss) && n < |ss|
    ensures JobsAccounted(e, ss[n])
  {
    if n == 0 {
    } else {
      RunKeepsAccount(e, id, lag, ss, n - 1);
      StepKeepsAccount(e, id, lag, ss[n - 1], ss[n]);
    }
  }

  /** Every row at or below the watermark that can be rendered was in an enqueued batch, and had its job. */
  ghost predicate AllHandled(e: Env, id: string, s: Sys) {
    forall r | r in s.src && !Above(r, MarkNow(s, id)) && SpecFor(e, r).Some? ::
      r in s.sent && HadJob(s, KeyOf(SpecFor(e, r).value))
  }

  /** If every row version is visible less than the effective bias after its timestamp, then in every
      state of every run each row at or below the watermark has been enqueued or cannot be rendered. */
  lemma NothingSkipped(e: Env, id: string, lag: nat, ss: seq<Sys>)
    requires Run(e, id, lag, ss) && lag < BiasMicros(e.query)
    ensures forall n | 0 <= n < |ss| :: AllHandled(e, id, ss[n])
  {
    forall n | 0 <= n < |ss| ensures AllHandled(e, id, ss[n]) {
      RunKeepsInv(e, id, lag, ss, n);
      RunKeepsAccount(e, id, lag, ss, n);
      var s := ss[n];
      forall r | r in s.src && !Above(r, MarkNow(s, id)) && SpecFor(e, r).Some?
        ensures r in s.sent && HadJob(s, KeyOf(SpecFor(e, r).value))
      {
        assert MadeFrom(e, s.sent, KeyOf(SpecFor(e, r).value));
      }
    }
  }

  /** Whatever the lag, the keys under a row's trace id are exactly those of its versions that were sent, and
      those enqueued from elsewhere. */
  lemma KeysOfRow(e: Env, id: string, lag: nat, ss: seq<Sys>, n: nat, pk: int, k: Key)
    requires Run(e, id, lag, ss) && n < |ss| && k.traceId == TraceID(e.query.table, Itoa(pk))
    ensures HadJob(ss[n], k) <==>
            || k in ss[n].foreign
            || exists v | v in ss[n].sent && v.pk == pk :: SpecFor(e, v).Some? && SpecFor(e, v).value.dst == k.dst
  {
    RunKeepsAccount(e, id, lag, ss, n);
    var sent := ss[n].sent;
    if v :| v in sent && SpecFor(e, v).Some? && KeyOf(SpecFor(e, v).value) == k {
      TraceIDInjective(e.query.table, v.pk, pk);
      assert v.pk == pk && SpecFor(e, v).value.dst == k.dst;
    }
    if v :| v in sent && v.pk == pk && SpecFor(e, v).Some? && SpecFor(e, v).value.dst == k.dst {
      assert KeyOf(SpecFor(e, v).value) == k;
      assert MadeFrom(e, sent, k);
    }
  }

  /** The sent versions of the row all go where it goes now. */
  ghost predicate NeverRetargeted(e: Env, sent: set<SrcRow>, r: SrcRow)
    requires SpecFor(e, r).Some?
  {
    forall v | v in sent && v.pk == r.pk && SpecFor(e, v).Some? :: SpecFor(e, v).value.dst == SpecFor(e, r).value.dst
  }

  /** No one else enqueued a job of the row that goes elsewhere. */
  predicate NoneBeside(foreign: set<Key>, k: Key) {
    forall x | x in foreign && x.traceId == k.traceId :: x == k
  }

  /** A renderable row at or below the watermark had its job, and no other job ever carried its trace id if and
      only if no sent version of it went elsewhere and no one else enqueued such a job. */
  lemma ExactlyOneKey(e: Env, id: string, lag: nat, ss: seq<Sys>, n: nat, r: SrcRow)
    requires Run(e, id, lag, ss) && lag < BiasMicros(e.query) && n < |ss|
    requires r in ss[n].src && !Above(r, MarkNow(ss[n], id)) && SpecFor(e, r).Some?
    ensures HadJob(ss[n], KeyOf(SpecFor(e, r).value))
    ensures (forall k: Key | HadJob(ss[n], k) && k.traceId == TraceID(e.query.table, Itoa(r.pk)) ::
               k == KeyOf(SpecFor(e, r).value))
            <==> NeverRetargeted(e, ss[n].sent, r) && NoneBeside(ss[n].foreign, KeyOf(SpecFor(e, r).value))
  {
    NothingSkipped(e, id, lag, ss);
    var s, trace, dst := ss[n], TraceID(e.query.table, Itoa(r.pk)), SpecFor(e, r).value.dst;
    assert AllHandled(e, id, s);
    forall k: Key | k.traceId == trace
      ensures HadJob(s, k) <==>
              || k in s.foreign
              || exists v | v in s.sent && v.pk == r.pk :: SpecFor(e, v).Some? && SpecFor(e, v).value.dst == k.dst
    {
      KeysOfRow(e, id, lag, ss, n, r.pk, k);
    }
    if v :| v in s.sent && v.pk == r.pk && SpecFor(e, v).Some? && SpecFor(e, v).value.dst != dst {
      assert HadJob(s, Key(trace, SpecFor(e, v).value.dst));
    }
    if x :| x in s.foreign && x.traceId == trace && x != Key(trace, dst) {
      assert HadJob(s, x);
    }
  }

  // ---- the watermark never moves back, whatever the lag ------------------------------------

  ghost predicate MarkOk(id: string, s: Sys) {
    && DistinctKeys(s.src)
    && match s.phase
       case Resting => true
       case Loaded(m) => m == MarkNow(s, id)
       case Holding(m, rows) => m == MarkNow(s, id) && forall r | r in rows :: Above(r, m)
       case Enqueued(m, rows) => m == MarkNow(s, id) && forall r | r in rows :: Above(r, m)
  }

  lemma StepMark(e: Env, id: string, lag: nat, s: Sys, s': Sys)
    requires MarkOk(id, s) && Step(e, id, lag, s, s')
    ensures MarkOk(id, s')
    ensures forall x: SrcRow :: Above(x, MarkNow(s', id)) ==> Above(x, MarkNow(s, id))
  {
    var l :| Enabled(e, lag, s, l) && s' == Next(e, id, s, l);
    match l {
      case Put(r) => PutMembers(s.src, r);
      case FetchRows => FetchIsFirstEligible(e.query, s.src, s.phase.m, s.now);
      case Save =>
        var last := s.phase.rows[|s.phase.rows| - 1];
        assert last in s.phase.rows;
        MarkRoundTrip(s.shelf.states, id, MarkOf(last), id);
        forall x: SrcRow ensures Above(x, MarkNow(s', id)) ==> Above(x, MarkNow(s, id)) {
        }
      case _ =>
    }
  }

  lemma {:induction false} WatermarkMonotone(e: Env, id: string, lag: nat, ss: seq<Sys>, i: nat, j: nat)
    requires Run(e, id, lag, ss) && i <= j < |ss|
    ensures MarkOk(id, ss[j])
    ensures forall x: SrcRow :: Above(x, MarkNow(ss[j], id)) ==> Above(x, MarkNow(ss[i], id))
    decreases j
  {
    if j == 0 {
    } else {
      if i < j {
        WatermarkMonotone(e, id, lag, ss, i, j - 1);
      } else {
        WatermarkMonotone(e, id, lag, ss, j - 1, j - 1);
      }
      StepMark(e, id, lag, ss[j - 1], ss[j]);
    }
  }

  // ---- the bias is exactly what is needed ------------------------------------------------------

  lemma Extend(e: Env, id: string, lag: nat, ss: seq<Sys>, s: Sys, l: Label) returns (more: seq<Sys>, s': Sys)
    requires Run(e, id, lag, ss) && ss[|ss| - 1] == s && Enabled(e, lag, s, l)
    ensures s' == Next(e, id, s, l) && Run(e, id, lag, more) && more[|more| - 1] == s'
  {
    s' := Next(e, id, s, l);
    assert Step(e, id, lag, s, s');
    more := ss + [s'];
  }

  /** How long it takes a version to settle. */
  function WaitFor(e: Env, v: SrcRow, now: int): nat {
    if v.ts + BiasMicros(e.query) > now then v.ts + BiasMicros(e.query) - now else 0
  }

  /** Puts the row, as the only one, lets it settle, and polls. */
  lemma PutAndPoll(e: Env, id: string, lag: nat, ss: seq<Sys>, s: Sys, v: SrcRow) returns (more: seq<Sys>, s': Sys)
    requires Run(e, id, lag, ss) && ss[|ss| - 1] == s && s.phase.Resting? && e.query.batchSize > 0
    requires PutRow(s.src, v) == [v] && s.now <= v.ts + lag && Above(v, MarkNow(s, id))
    ensures Run(e, id, lag, more) && more[|more| - 1] == s' && s'.phase.Resting?
    ensures s'.src == [v] && s'.sent == s.sent + {v} && MarkNow(s', id) == MarkOf(v)
    ensures s'.now == s.now + WaitFor(e, v, s.now) && s'.foreign == s.foreign && s'.deleted == s.deleted
  {
    var put, settled, loaded, fetched, enqueued;
    more, put := Extend(e, id, lag, ss, s, Put(v));
    more, settled := Extend(e, id, lag, more, put, Tick(WaitFor(e, v, s.now)));
    more, loaded := Extend(e, id, lag, more, settled, Load);
    FetchesTheOne(e.query, v, MarkNow(s, id), loaded.now);
    more, fetched := Extend(e, id, lag, more, loaded, FetchRows);
    more, enqueued := Extend(e, id, lag, more, fetched, EnqueueRows);
    more, s' := Extend(e, id, lag, more, enqueued, Save);
    assert SeqSet([v]) == {v};
  }

  /** A row that could be in the source and from which a job can be rendered. */
  predicate Renders(e: Env, r: SrcRow) {
    r.ts > ZERO_TS && SpecFor(e, r).Some?
  }

  ghost predicate Renderable(e: Env) {
    exists r :: Renders(e, r)
  }

  /** The empty source of a fresh deployment. */
  function Fresh(now: int): Sys {
    Sys([], {}, {}, {}, Shelf(map[], map[]), now, Resting)
  }

  ghost predicate IsFresh(id: string, lag: nat, s: Sys) {
    && s.src == [] && s.sent == {} && |s.shelf.jobs| == 0 && s.deleted == {} && id !in s.shelf.states
    && s.phase.Resting? && s.now == lag + 1
  }

  lemma Deployed(e: Env, id: string, lag: nat) returns (ss: seq<Sys>, s: Sys)
    ensures Run(e, id, lag, ss) && ss[|ss| - 1] == s && IsFresh(id, lag, s)
  {
    s := Fresh(lag + 1);
    ss := [s];
  }

  /** The first row of all is put and polled. */
  lemma FirstPoll(e: Env, id: string, lag: nat, v: SrcRow) returns (ss: seq<Sys>, s: Sys)
    requires e.query.batchSize > 0 && v.ts > ZERO_TS
    ensures Run(e, id, lag, ss) && ss[|ss| - 1] == s && s.phase.Resting? && s.deleted == {}
    ensures s.src == [v] && s.sent == {v} && MarkNow(s, id) == MarkOf(v)
    ensures s.now == lag + 1 + WaitFor(e, v, lag + 1)
  {
    var start;
    ss, start := Deployed(e, id, lag);
    assert PutRow([], v) == [v] && Above(v, MarkNow(start, id));
    ss, s := PutAndPoll(e, id, lag, ss, start, v);
  }

  /** With a lag that reaches the effective bias, any renderable row can appear below the watermark: a row of
      the same timestamp and a larger key, renderable or not, is polled the moment it settles. */
  lemma LateRowIsSkipped(e: Env, id: string, lag: nat, r: SrcRow) returns (ss: seq<Sys>)
    requires e.query.batchSize > 0 && lag >= BiasMicros(e.query) && Renders(e, r)
    ensures Run(e, id, lag, ss) && r in ss[|ss| - 1].src && !Above(r, MarkNow(ss[|ss| - 1], id))
    ensures r !in ss[|ss| - 1].sent
  {
    var b := SrcRow(r.pk + 1, r.ts, map[]);
    var polled, late;
    ss, polled := FirstPoll(e, id, lag, b);
    ss, late := Extend(e, id, lag, ss, polled, Put(r));
    assert late.src == [b, r];
  }

  ghost predicate SourceFine(lag: nat, s: Sys) {
    s.now > lag && DistinctKeys(s.src) && forall r | r in s.src :: r.ts > ZERO_TS
  }

  lemma {:induction false} RunKeepsSource(e: Env, id: string, lag: nat, ss: seq<Sys>, n: nat)
    requires Run(e, id, lag, ss) && n < |ss|
    ensures SourceFine(lag, ss[n])
  {
    if n == 0 {
    } else {
      RunKeepsSource(e, id, lag, ss, n - 1);
      var l :| Enabled(e, lag, ss[n - 1], l) && ss[n] == Next(e, id, ss[n - 1], l);
      if l.Put? {
        PutMembers(ss[n - 1].src, l.row);
      }
    }
  }

  /** Without a usable batch size nothing is ever fetched, so no row falls below the watermark. */
  lemma {:induction false} NeverFetched(e: Env, id: string, lag: nat, ss: seq<Sys>, n: nat)
    requires Run(e, id, lag, ss) && e.query.batchSize <= 0 && n < |ss|
    ensures id !in ss[n].shelf.states && !ss[n].phase.Holding? && !ss[n].phase.Enqueued?
  {
    if n == 0 {
    } else {
      NeverFetched(e, id, lag, ss, n - 1);
      var l :| Enabled(e, lag, ss[n - 1], l) && ss[n] == Next(e, id, ss[n - 1], l);
    }
  }

  ghost predicate AlwaysComplete(e: Env, id: string, lag: nat) {
    forall ss | Run(e, id, lag, ss) :: forall n | 0 <= n < |ss| :: Complete(e, id, ss[n])
  }

  lemma CompleteInRun(e: Env, id: string, lag: nat, ss: seq<Sys>, n: nat)
    requires lag < BiasMicros(e.query) || e.query.batchSize <= 0 || !Renderable(e)
    requires Run(e, id, lag, ss) && n < |ss|
    ensures Complete(e, id, ss[n])
  {
    if lag < BiasMicros(e.query) {
      RunKeepsInv(e, id, lag, ss, n);
    } else {
      RunKeepsSource(e, id, lag, ss, n);
      if e.query.batchSize <= 0 {
        NeverFetched(e, id, lag, ss, n);
      } else {
        assert forall r | r in ss[n].src :: !Renders(e, r);
      }
    }
  }

  /** No run ever skips a row if and only if the lag stays below the bias rounded down to whole seconds, or
      the configuration can fetch nothing or render nothing at all. */
  lemma CompleteIffLagBelowBias(e: Env, id: string, lag: nat)
    ensures AlwaysComplete(e, id, lag) <==>
            || (lag / 1_000_000 + 1) * 1_000_000_000 <= e.query.bias || e.query.batchSize <= 0 || !Renderable(e)
  {
    BiasCovers(e.query, lag);
    if lag < BiasMicros(e.query) || e.query.batchSize <= 0 || !Renderable(e) {
      forall ss, n | Run(e, id, lag, ss) && 0 <= n < |ss| ensures Complete(e, id, ss[n]) {
        CompleteInRun(e, id, lag, ss, n);
      }
    } else {
      var r :| Renders(e, r);
      var ss := LateRowIsSkipped(e, id, lag, r);
      assert !Complete(e, id, ss[|ss| - 1]);
    }
  }

  /** Two versions of one row, of which the second can still appear when the first has settled. */
  predicate Successive(e: Env, lag: nat, v: SrcRow, w: SrcRow) {
    w.pk == v.pk && ZERO_TS < v.ts < w.ts && v.ts + BiasMicros(e.query) <= w.ts + lag
  }

  /** A row updated between two polls so that it goes elsewhere ends up with two jobs. */
  lemma RetargetedTwice(e: Env, id: string, lag: nat, v: SrcRow, w: SrcRow) returns (ss: seq<Sys>)
    requires e.query.batchSize > 0 && Successive(e, lag, v, w) && SpecFor(e, v).Some? && SpecFor(e, w).Some?
    requires SpecFor(e, v).value.dst != SpecFor(e, w).value.dst
    ensures Run(e, id, lag, ss)
    ensures var k1, k2 := KeyOf(SpecFor(e, v).value), KeyOf(SpecFor(e, w).value);
            && k1 != k2 && k1.traceId == k2.traceId
            && k1 in ss[|ss| - 1].shelf.jobs && k2 in ss[|ss| - 1].shelf.jobs
  {
    var polled, again;
    ss, polled := FirstPoll(e, id, lag, v);
    assert PutRow([v], w) == [w];
    ss, again := PutAndPoll(e, id, lag, ss, polled, w);
    RunKeepsAccount(e, id, lag, ss, |ss| - 1);
    assert v in again.sent && w in again.sent;
    assert MadeFrom(e, again.sent, KeyOf(SpecFor(e, v).value));
    assert MadeFrom(e, again.sent, KeyOf(SpecFor(e, w).value));
    assert HadJob(again, KeyOf(SpecFor(e, v).value)) && HadJob(again, KeyOf(SpecFor(e, w).value));
  }
}
