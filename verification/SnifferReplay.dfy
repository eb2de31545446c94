/**
 * When a failed poll leaves no trace. Two runs are compared: in one a batch was enqueued and the poll then
 * failed, in the other it failed before; after that both see the same steps of the source, the sniffer and
 * the others who use the job table.
 */
module SnifferReplay {
  import opened Common
  import opened Decimal
  import opened JobTable
  import opened SnifferQuery
  import opened SnifferEnqueue
  import opened Sniffer
  import opened SnifferSystem
  import opened SnifferTheorems

  ghost predicate Follows(e: Env, id: string, lag: nat, s: Sys, ls: seq<Label>)
    decreases |ls|
  {
    |ls| > 0 ==> Enabled(e, lag, s, ls[0]) && Follows(e, id, lag, Next(e, id, s, ls[0]), ls[1..])
  }

  ghost function After(e: Env, id: string, lag: nat, s: Sys, ls: seq<Label>): Sys
    requires Follows(e, id, lag, s, ls)
    decreases |ls|
  {
    if |ls| == 0 then s else After(e, id, lag, Next(e, id, s, ls[0]), ls[1..])
  }

  // ---- what the table holds after a run -------------------------------------------------------

  function Lookup(t: Table, k: Key): Option<JobSpec> {
    if k in t then Some(t[k]) else None
  }

  /** What a step tries to enqueue. */
  function Offer(e: Env, s: Sys, l: Label): seq<JobSpec> {
    match l
    case EnqueueRows => if s.phase.Holding? then Specs(e, s.phase.rows) else []
    case Foreign(j) => [j]
    case _ => []
  }

  /** All that the steps try to enqueue, in their order. */
  ghost function Offered(e: Env, id: string, lag: nat, s: Sys, ls: seq<Label>): seq<JobSpec>
    requires Follows(e, id, lag, s, ls)
    decreases |ls|
  {
    if |ls| == 0 then [] else Offer(e, s, ls[0]) + Offered(e, id, lag, Next(e, id, s, ls[0]), ls[1..])
  }

  predicate Deletes(l: Label, k: Key) {
    l.Delete? && k in l.keys
  }

  ghost predicate Removed(ls: seq<Label>, k: Key) {
    exists l | l in ls :: Deletes(l, k)
  }

  lemma RemovedHead(ls: seq<Label>, k: Key)
    requires |ls| > 0
    ensures Removed(ls, k) <==> Deletes(ls[0], k) || Removed(ls[1..], k)
  {
    assert forall l :: l in ls <==> l == ls[0] || l in ls[1..];
  }

  /** What a step that does not delete a key does to its job. */
  lemma StepAt(e: Env, id: string, lag: nat, s: Sys, l: Label, k: Key)
    requires Enabled(e, lag, s, l) && !Deletes(l, k)
    ensures var t, offer := s.shelf.jobs, Offer(e, s, l);
            Lookup(Next(e, id, s, l).shelf.jobs, k)
            == if k !in t && k in Keys(offer) then Some(FirstWith(offer, k)) else Lookup(t, k)
  {
  }

  /** A job that is not deleted is what was there before, or else the first that was offered. */
  lemma {:induction false} JobAfter(e: Env, id: string, lag: nat, s: Sys, ls: seq<Label>, k: Key)
    requires Follows(e, id, lag, s, ls) && !Removed(ls, k)
    ensures var t, offered := s.shelf.jobs, Offered(e, id, lag, s, ls);
            Lookup(After(e, id, lag, s, ls).shelf.jobs, k)
            == if k !in t && k in Keys(offered) then Some(FirstWith(offered, k)) else Lookup(t, k)
    decreases |ls|
  {
    if |ls| == 0 {
    } else {
      var next := Next(e, id, s, ls[0]);
      RemovedHead(ls, k);
      StepAt(e, id, lag, s, ls[0], k);
      JobAfter(e, id, lag, next, ls[1..], k);
      var first, rest := Offer(e, s, ls[0]), Offered(e, id, lag, next, ls[1..]);
      KeysConcat(first, rest);
      if k in Keys(first + rest) {
        FirstConcat(first, rest, k);
      }
    }
  }

  // ---- two runs side by side --------------------------------------------------------------------

  /** Nothing but the jobs, what was sent and what was deleted tells the two states apart. */
  predicate Parallel(s: Sys, t: Sys) {
    && s.src == t.src && s.now == t.now && s.phase == t.phase && s.shelf.states == t.shelf.states
    && s.foreign == t.foreign
  }

  lemma StepKeepsParallel(e: Env, id: string, lag: nat, s: Sys, t: Sys, l: Label)
    requires Parallel(s, t) && Enabled(e, lag, s, l)
    ensures Enabled(e, lag, t, l) && Parallel(Next(e, id, s, l), Next(e, id, t, l)) && Offer(e, s, l) == Offer(e, t, l)
  {
  }

  lemma {:induction false} RunKeepsParallel(e: Env, id: string, lag: nat, s: Sys, t: Sys, ls: seq<Label>)
    requires Parallel(s, t) && Follows(e, id, lag, s, ls)
    ensures Follows(e, id, lag, t, ls) && Parallel(After(e, id, lag, s, ls), After(e, id, lag, t, ls))
    ensures Offered(e, id, lag, s, ls) == Offered(e, id, lag, t, ls)
    decreases |ls|
  {
    if |ls| == 0 {
    } else {
      StepKeepsParallel(e, id, lag, s, t, ls[0]);
      RunKeepsParallel(e, id, lag, Next(e, id, s, ls[0]), Next(e, id, t, ls[0]), ls[1..]);
    }
  }

  lemma StepKeepsSame(e: Env, id: string, lag: nat, s: Sys, t: Sys, l: Label, k: Key)
    requires Parallel(s, t) && Enabled(e, lag, s, l) && Enabled(e, lag, t, l)
    requires Lookup(s.shelf.jobs, k) == Lookup(t.shelf.jobs, k) || Deletes(l, k)
    ensures Lookup(Next(e, id, s, l).shelf.jobs, k) == Lookup(Next(e, id, t, l).shelf.jobs, k)
  {
    StepKeepsParallel(e, id, lag, s, t, l);
    if !Deletes(l, k) {
      StepAt(e, id, lag, s, l, k);
      StepAt(e, id, lag, t, l, k);
    }
  }

  /** A job that is the same in both stays the same, and so does one that is deleted. */
  lemma {:induction false} SameAfter(e: Env, id: string, lag: nat, s: Sys, t: Sys, ls: seq<Label>, k: Key)
    requires Parallel(s, t) && Follows(e, id, lag, s, ls) && Follows(e, id, lag, t, ls)
    requires Lookup(s.shelf.jobs, k) == Lookup(t.shelf.jobs, k) || Removed(ls, k)
    ensures Lookup(After(e, id, lag, s, ls).shelf.jobs, k) == Lookup(After(e, id, lag, t, ls).shelf.jobs, k)
    decreases |ls|
  {
    if |ls| == 0 {
    } else {
      RemovedHead(ls, k);
      StepKeepsParallel(e, id, lag, s, t, ls[0]);
      if Lookup(s.shelf.jobs, k) == Lookup(t.shelf.jobs, k) || Deletes(ls[0], k) {
        StepKeepsSame(e, id, lag, s, t, ls[0], k);
      }
      SameAfter(e, id, lag, Next(e, id, s, ls[0]), Next(e, id, t, ls[0]), ls[1..], k);
    }
  }

  // ---- the condition -------------------------------------------------------------------------------

  /** The job that the failed poll put under a free key does not outlast the steps, or is just what they
      would have put there themselves. */
  ghost predicate MadeUp(e: Env, id: string, lag: nat, h: Sys, ls: seq<Label>, k: Key)
    requires h.phase.Holding? && Follows(e, id, lag, Next(e, id, h, Fail), ls) && k in Keys(Specs(e, h.phase.rows))
  {
    var offered := Offered(e, id, lag, Next(e, id, h, Fail), ls);
    Removed(ls, k) || (k in Keys(offered) && FirstWith(offered, k) == FirstWith(Specs(e, h.phase.rows), k))
  }

  function FailedLate(e: Env, id: string, h: Sys): Sys
    requires h.phase.Holding?
  {
    Next(e, id, Next(e, id, h, EnqueueRows), Fail)
  }

  lemma SameJobIff(e: Env, id: string, lag: nat, h: Sys, ls: seq<Label>, k: Key)
    requires h.phase.Holding? && Follows(e, id, lag, FailedLate(e, id, h), ls)
    requires Follows(e, id, lag, Next(e, id, h, Fail), ls)
    ensures Lookup(After(e, id, lag, FailedLate(e, id, h), ls).shelf.jobs, k)
            == Lookup(After(e, id, lag, Next(e, id, h, Fail), ls).shelf.jobs, k)
            <==> (k in Keys(Specs(e, h.phase.rows)) && k !in h.shelf.jobs ==> MadeUp(e, id, lag, h, ls, k))
  {
    var late, early := FailedLate(e, id, h), Next(e, id, h, Fail);
    if k !in Keys(Specs(e, h.phase.rows)) || k in h.shelf.jobs || Removed(ls, k) {
      SameAfter(e, id, lag, late, early, ls, k);
    } else {
      JobAfter(e, id, lag, late, ls, k);
      JobAfter(e, id, lag, early, ls, k);
    }
  }

  /** Whether a poll fails before or after its batch is enqueued makes no difference to what is stored after
      any steps if and only if each new job of the batch is deleted by them, or would have been enqueued by
      them just the same. */
  lemma NoTraceIff(e: Env, id: string, lag: nat, h: Sys, ls: seq<Label>)
    requires h.phase.Holding? && Follows(e, id, lag, FailedLate(e, id, h), ls)
    ensures Follows(e, id, lag, Next(e, id, h, Fail), ls)
    ensures After(e, id, lag, FailedLate(e, id, h), ls).shelf == After(e, id, lag, Next(e, id, h, Fail), ls).shelf
            <==> forall k | k in Keys(Specs(e, h.phase.rows)) && k !in h.shelf.jobs :: MadeUp(e, id, lag, h, ls, k)
  {
    var late, early := FailedLate(e, id, h), Next(e, id, h, Fail);
    RunKeepsParallel(e, id, lag, late, early, ls);
    forall k: Key {
      SameJobIff(e, id, lag, h, ls, k);
    }
    SameTables(After(e, id, lag, late, ls).shelf.jobs, After(e, id, lag, early, ls).shelf.jobs);
  }

  lemma SameTables(t: Table, u: Table)
    ensures t == u <==> forall k: Key :: Lookup(t, k) == Lookup(u, k)
  {
    if forall k: Key :: Lookup(t, k) == Lookup(u, k) {
      forall k: Key ensures (k in t <==> k in u) && (k in t ==> t[k] == u[k]) {
        assert Lookup(t, k) == Lookup(u, k);
      }
    }
  }

  // ---- enough in practice: the batch is left alone and polled again ----------------------------------

  /** No step updates a row of the batch, and no one else enqueues a job of it. */
  ghost predicate Spares(e: Env, l: Label, batch: seq<SrcRow>) {
    && (l.Put? ==> forall r | r in batch :: r.pk != l.row.pk)
    && (l.Foreign? ==> KeyOf(l.spec) !in Keys(Specs(e, batch)))
  }

  ghost predicate PhaseAgrees(id: string, t: Sys, batch: seq<SrcRow>) {
    match t.phase
    case Resting => true
    case Loaded(m) => m == MarkNow(t, id)
    case Holding(m, rows) => m == MarkNow(t, id) && batch <= rows
    case Enqueued(_, _) => false
  }

  /** The batch is still to come. */
  ghost predicate Due(e: Env, id: string, t: Sys, batch: seq<SrcRow>) {
    && DistinctKeys(t.src) && |batch| <= e.query.batchSize
    && Intact(e.query, t.src, MarkNow(t, id), t.now, batch)
    && PhaseAgrees(id, t, batch)
  }

  lemma PutSpares(src: seq<SrcRow>, r: SrcRow, x: SrcRow)
    requires x in src && x.pk != r.pk
    ensures x in PutRow(src, r)
  {
    var i :| 0 <= i < |src| && src[i] == x;
    assert PutRow(src, r)[i] == x;
  }

  /** A row that has just become visible comes after every settled row. */
  lemma PutKeepsDue(e: Env, id: string, lag: nat, t: Sys, batch: seq<SrcRow>, r: SrcRow)
    requires Due(e, id, t, batch) && lag < BiasMicros(e.query) && t.now <= r.ts + lag && Spares(e, Put(r), batch)
    ensures Due(e, id, Next(e, id, t, Put(r)), batch)
  {
    PutMembers(t.src, r);
    assert batch[|batch| - 1] in batch;
    forall x | x in batch ensures x in PutRow(t.src, r) {
      PutSpares(t.src, r, x);
    }
  }

  lemma StepKeepsDue(e: Env, id: string, lag: nat, t: Sys, batch: seq<SrcRow>, l: Label)
    requires Due(e, id, t, batch) && lag < BiasMicros(e.query) && Enabled(e, lag, t, l) && Spares(e, l, batch)
    requires !l.EnqueueRows?
    ensures Due(e, id, Next(e, id, t, l), batch)
  {
    match l {
      case Put(r) => PutKeepsDue(e, id, lag, t, batch, r);
      case FetchRows => FetchExtends(e.query, t.src, t.phase.m, t.now, batch);
      case _ =>
    }
  }

  /** Until then no one offers a job of the batch, and then its rows come first. */
  lemma {:induction false} OfferedAgain(e: Env, id: string, lag: nat, t: Sys, batch: seq<SrcRow>, ls: seq<Label>,
                                        k: Key)
    requires Due(e, id, t, batch) && lag < BiasMicros(e.query) && Follows(e, id, lag, t, ls) && EnqueueRows in ls
    requires (forall l | l in ls :: Spares(e, l, batch)) && k in Keys(Specs(e, batch))
    ensures var offered := Offered(e, id, lag, t, ls);
            k in Keys(offered) && FirstWith(offered, k) == FirstWith(Specs(e, batch), k)
    decreases |ls|
  {
    var next := Next(e, id, t, ls[0]);
    var first, rest := Offer(e, t, ls[0]), Offered(e, id, lag, next, ls[1..]);
    KeysConcat(first, rest);
    if ls[0].EnqueueRows? {
      var more := t.phase.rows[|batch|..];
      assert t.phase.rows == batch + more;
      SpecsAppend(e, batch, more);
      KeysConcat(Specs(e, batch), Specs(e, more));
      FirstConcat(Specs(e, batch), Specs(e, more), k);
    } else {
      StepKeepsDue(e, id, lag, t, batch, ls[0]);
      assert ls == [ls[0]] + ls[1..];
      OfferedAgain(e, id, lag, next, batch, ls[1..], k);
      assert k !in Keys(first);
    }
    FirstConcat(first, rest, k);
  }

  /** The batch in hand when it is enqueued again holds all that was sent before. */
  lemma {:induction false} SentAgain(e: Env, id: string, lag: nat, s: Sys, t: Sys, batch: seq<SrcRow>, ls: seq<Label>)
    requires Parallel(s, t) && lag < BiasMicros(e.query) && Follows(e, id, lag, s, ls) && Follows(e, id, lag, t, ls)
    requires forall l | l in ls :: Spares(e, l, batch)
    requires s.sent == t.sent || (Due(e, id, t, batch) && s.sent == t.sent + SeqSet(batch) && EnqueueRows in ls)
    ensures After(e, id, lag, s, ls).sent == After(e, id, lag, t, ls).sent
    decreases |ls|
  {
    if |ls| == 0 {
    } else {
      StepKeepsParallel(e, id, lag, s, t, ls[0]);
      assert ls == [ls[0]] + ls[1..];
      if s.sent != t.sent {
        if ls[0].EnqueueRows? {
          assert s.sent + SeqSet(t.phase.rows) == t.sent + SeqSet(t.phase.rows);
        } else {
          StepKeepsDue(e, id, lag, t, batch, ls[0]);
        }
      }
      SentAgain(e, id, lag, Next(e, id, s, ls[0]), Next(e, id, t, ls[0]), batch, ls[1..]);
    }
  }

  lemma HoldingIsDue(e: Env, id: string, lag: nat, h: Sys)
    requires Inv(e, id, lag, h) && h.phase.Holding? && forall r | r in h.phase.rows :: r in h.src
    ensures Due(e, id, Next(e, id, h, Fail), h.phase.rows)
  {
    assert h.phase.rows[|h.phase.rows| - 1] in h.phase.rows;
  }

  lemma AllMadeUp(e: Env, id: string, lag: nat, h: Sys, ls: seq<Label>)
    requires h.phase.Holding? && Due(e, id, Next(e, id, h, Fail), h.phase.rows) && lag < BiasMicros(e.query)
    requires Follows(e, id, lag, Next(e, id, h, Fail), ls) && EnqueueRows in ls
    requires forall l | l in ls :: Spares(e, l, h.phase.rows)
    ensures forall k | k in Keys(Specs(e, h.phase.rows)) && k !in h.shelf.jobs :: MadeUp(e, id, lag, h, ls, k)
  {
    forall k | k in Keys(Specs(e, h.phase.rows)) && k !in h.shelf.jobs ensures MadeUp(e, id, lag, h, ls, k) {
      OfferedAgain(e, id, lag, Next(e, id, h, Fail), h.phase.rows, ls, k);
    }
  }

  lemma SentTheSame(e: Env, id: string, lag: nat, h: Sys, ls: seq<Label>)
    requires h.phase.Holding? && Due(e, id, Next(e, id, h, Fail), h.phase.rows) && lag < BiasMicros(e.query)
    requires Follows(e, id, lag, FailedLate(e, id, h), ls) && EnqueueRows in ls
    requires forall l | l in ls :: Spares(e, l, h.phase.rows)
    ensures Follows(e, id, lag, Next(e, id, h, Fail), ls)
    ensures var late, early := After(e, id, lag, FailedLate(e, id, h), ls), After(e, id, lag, Next(e, id, h, Fail), ls);
            Parallel(late, early) && late.sent == early.sent
  {
    RunKeepsParallel(e, id, lag, FailedLate(e, id, h), Next(e, id, h, Fail), ls);
    SentAgain(e, id, lag, FailedLate(e, id, h), Next(e, id, h, Fail), h.phase.rows, ls);
  }

  /** In any run with a lag below the effective bias: whether a poll fails before or after its batch is
      enqueued makes no difference once a batch is enqueued again, whatever rows come and go in between, as
      long as the rows of the batch itself are not updated and no one else enqueues their jobs. */
  lemma FailureLeavesNoTrace(e: Env, id: string, lag: nat, ss: seq<Sys>, n: nat, ls: seq<Label>)
    requires Run(e, id, lag, ss) && lag < BiasMicros(e.query) && n < |ss| && ss[n].phase.Holding?
    requires forall r | r in ss[n].phase.rows :: r in ss[n].src
    requires Follows(e, id, lag, FailedLate(e, id, ss[n]), ls)
    requires EnqueueRows in ls && forall l | l in ls :: Spares(e, l, ss[n].phase.rows)
    ensures var late, early := FailedLate(e, id, ss[n]), Next(e, id, ss[n], Fail);
            && Follows(e, id, lag, early, ls)
            && After(e, id, lag, late, ls)
               == After(e, id, lag, early, ls).(deleted := After(e, id, lag, late, ls).deleted)
  {
    var h := ss[n];
    RunKeepsInv(e, id, lag, ss, n);
    HoldingIsDue(e, id, lag, h);
    NoTraceIff(e, id, lag, h, ls);
    AllMadeUp(e, id, lag, h, ls);
    SentTheSame(e, id, lag, h, ls);
  }

  // ---- an update of the batch does make a difference ---------------------------------------------

  lemma Then(e: Env, id: string, lag: nat, s: Sys, l: Label, ls: seq<Label>)
    requires Enabled(e, lag, s, l) && Follows(e, id, lag, Next(e, id, s, l), ls)
    ensures Follows(e, id, lag, s, [l] + ls)
    ensures After(e, id, lag, s, [l] + ls) == After(e, id, lag, Next(e, id, s, l), ls)
  {
    assert ([l] + ls)[1..] == ls;
  }

  function UpdateAndPoll(e: Env, w: SrcRow, now: int): seq<Label> {
    [Put(w)] + ([Tick(WaitFor(e, w, now))] + ([Load] + ([FetchRows] + ([EnqueueRows] + []))))
  }

  /** The one row is updated, settles, and is polled up to the insert. */
  lemma Updated(e: Env, id: string, lag: nat, s: Sys, v: SrcRow, w: SrcRow)
    requires e.query.batchSize > 0 && s.phase.Resting? && s.src == [v] && w.pk == v.pk && w.ts > ZERO_TS
    requires id !in s.shelf.states && s.now <= w.ts + lag
    ensures Follows(e, id, lag, s, UpdateAndPoll(e, w, s.now))
    ensures After(e, id, lag, s, UpdateAndPoll(e, w, s.now)).shelf.jobs == InsertRows(s.shelf.jobs, Specs(e, [w]))
  {
    var wait := Tick(WaitFor(e, w, s.now));
    var put := Next(e, id, s, Put(w));
    var settled := Next(e, id, put, wait);
    var loaded := Next(e, id, settled, Load);
    assert put.src == [w];
    FetchesTheOne(e.query, w, Mark(ZERO_TS, ""), loaded.now);
    var fetched := Next(e, id, loaded, FetchRows);
    var enqueued := Next(e, id, fetched, EnqueueRows);
    Then(e, id, lag, fetched, EnqueueRows, []);
    Then(e, id, lag, loaded, FetchRows, [EnqueueRows] + []);
    Then(e, id, lag, settled, Load, [FetchRows] + ([EnqueueRows] + []));
    Then(e, id, lag, put, wait, [Load] + ([FetchRows] + ([EnqueueRows] + [])));
    Then(e, id, lag, s, Put(w), [wait] + ([Load] + ([FetchRows] + ([EnqueueRows] + []))));
  }

  lemma OneRowFetched(e: Env, id: string, lag: nat, v: SrcRow) returns (ss: seq<Sys>, h: Sys)
    requires e.query.batchSize > 0 && v.ts > ZERO_TS
    ensures Run(e, id, lag, ss) && h == ss[|ss| - 1] && h.src == [v] && |h.shelf.jobs| == 0 && id !in h.shelf.states
    ensures h.phase == Holding(Mark(ZERO_TS, ""), [v]) && h.now == lag + 1 + WaitFor(e, v, lag + 1)
  {
    var start, put, settled, loaded;
    ss, start := Deployed(e, id, lag);
    ss, put := Extend(e, id, lag, ss, start, Put(v));
    ss, settled := Extend(e, id, lag, ss, put, Tick(WaitFor(e, v, lag + 1)));
    ss, loaded := Extend(e, id, lag, ss, settled, Load);
    FetchesTheOne(e.query, v, Mark(ZERO_TS, ""), loaded.now);
    ss, h := Extend(e, id, lag, ss, loaded, FetchRows);
  }

  lemma OldKeyStays(e: Env, t: Table, v: SrcRow, w: SrcRow, k: Key)
    requires SpecFor(e, v).Some? && SpecFor(e, w).Some? && SpecFor(e, v).value.dst != SpecFor(e, w).value.dst
    requires k == KeyOf(SpecFor(e, v).value) && k !in t
    ensures k in InsertRows(InsertRows(t, Specs(e, [v])), Specs(e, [w])) && k !in InsertRows(t, Specs(e, [w]))
  {
  }

  /** A row of the failed batch is updated to go elsewhere before the next poll: the job of the old version
      stays behind, which the run without the failed poll never makes. */
  lemma UpdateLeavesTrace(e: Env, id: string, lag: nat, v: SrcRow, w: SrcRow) returns (ss: seq<Sys>, ls: seq<Label>)
    requires e.query.batchSize > 0 && Successive(e, lag, v, w) && SpecFor(e, v).Some? && SpecFor(e, w).Some?
    requires SpecFor(e, v).value.dst != SpecFor(e, w).value.dst
    ensures Run(e, id, lag, ss) && ss[|ss| - 1].phase.Holding? && EnqueueRows in ls
    ensures var late, early := FailedLate(e, id, ss[|ss| - 1]), Next(e, id, ss[|ss| - 1], Fail);
            var k := KeyOf(SpecFor(e, v).value);
            && Follows(e, id, lag, late, ls) && Follows(e, id, lag, early, ls)
            && k in After(e, id, lag, late, ls).shelf.jobs && k !in After(e, id, lag, early, ls).shelf.jobs
  {
    var h;
    ss, h := OneRowFetched(e, id, lag, v);
    var late, early := FailedLate(e, id, h), Next(e, id, h, Fail);
    ls := UpdateAndPoll(e, w, h.now);
    Updated(e, id, lag, late, v, w);
    Updated(e, id, lag, early, v, w);
    OldKeyStays(e, h.shelf.jobs, v, w, KeyOf(SpecFor(e, v).value));
  }
}
