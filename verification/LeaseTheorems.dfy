/** What the lease protocol guarantees, over every run of it. */
module LeaseTheorems {
  import opened Common
  import opened JobTable
  import opened LeaseProtocol
  import opened LeaseInvariant

  // ---- fencing -----------------------------------------------------------------

  /** A worker that still finds its row leased under its own name is in the lease it was given. */
  lemma Fencing(s0: Sys, ls: seq<Label>, pid: int)
    requires Init(s0) && Run(s0, ls)
    requires Busy(Exec(s0, ls), pid)
    requires Guard(Exec(s0, ls).db, Exec(s0, ls).workers[pid].job.value.id, Exec(s0, ls).workers[pid].name)
    ensures var s := Exec(s0, ls);
            var snap := s.workers[pid].job.value;
            s.db.jobs[snap.id] == snap.row && LeasesOf(s, snap.id) == snap.serial
  {
    RunKeepsInv(s0, ls);
    assert Fenced(Exec(s0, ls), Exec(s0, ls).workers[pid]);
  }

  /** What an outcome write that finds its guard holding does to the table, the log and the history. */
  ghost predicate EndsLease(s: Sys, s': Sys, id: int, k: EventKind) {
    && id in s.db.jobs && s'.db.jobs.Keys == s.db.jobs.Keys
    && (forall j | j in s.db.jobs && j != id :: s'.db.jobs[j] == s.db.jobs[j])
    && s'.db.jobs[id].attempts == s.db.jobs[id].attempts + (if k == EvFail || k == EvDead then 1 else 0)
    && s'.db.jobs[id].status != Leased && s'.db.jobs[id].lockedBy == None
    && s'.db.events == s.db.events + [Event(id, s.db.jobs[id].traceId, k)]
    && EndingsOf(s', id) == EndingsOf(s, id) + [Ending(LeasesOf(s, id), Some(k))]
  }

  lemma GuardedWrite(s: Sys, pid: int, o: Outcome)
    requires Busy(s, pid) && Fenced(s, s.workers[pid])
    requires Guard(s.db, s.workers[pid].job.value.id, s.workers[pid].name)
    ensures var id := s.workers[pid].job.value.id;
            EndsLease(s, StepWrite(s, pid, o), id, OutcomeKind(s.db.jobs[id], o))
  {
  }

  /** An outcome write changes nothing but a row leased under the writer's name; there it counts
      one attempt more exactly when it records a failure, and it ends the lease in progress. */
  lemma EffectiveWrite(s0: Sys, ls: seq<Label>, pid: int, o: Outcome)
    requires Init(s0) && Run(s0, ls) && Enabled(Exec(s0, ls), Write(pid, o))
    ensures var s, s' := Exec(s0, ls), Next(Exec(s0, ls), Write(pid, o));
            var id, name := s.workers[pid].job.value.id, s.workers[pid].name;
            if Guard(s.db, id, name) then EndsLease(s, s', id, OutcomeKind(s.db.jobs[id], o)) else s' == s
  {
    RunKeepsInv(s0, ls);
    var s := Exec(s0, ls);
    assert Fenced(s, s.workers[pid]);
    if Guard(s.db, s.workers[pid].job.value.id, s.workers[pid].name) {
      GuardedWrite(s, pid, o);
    }
  }

  /** The worker's write can no longer take effect. */
  predicate Spent(s: Sys, pid: int) {
    Busy(s, pid) && !Guard(s.db, s.workers[pid].job.value.id, s.workers[pid].name)
  }

  /** Steps by which the worker gives up its snapshot. */
  predicate LetsGo(l: Label, pid: int) {
    l == Finish(pid) || l == Crash(pid)
  }

  lemma StepKeepsSpent(s: Sys, l: Label, pid: int)
    requires Keyed(s.db) && WorkersFenced(s) && NamesDistinct(s) && Enabled(s, l) && Spent(s, pid) && !LetsGo(l, pid)
    ensures Spent(Next(s, l), pid) && Next(s, l).workers[pid] == s.workers[pid]
  {
    assert Fenced(s, s.workers[pid]);
    if l.DoInsertBatch? {
      BatchGuard(s.db, l.specs, s.workers[pid].job.value.id, s.workers[pid].name);
    }
  }

  lemma {:induction false} BatchGuard(db: Db, specs: seq<JobSpec>, id: int, name: string)
    requires !Guard(db, id, name)
    ensures !Guard(InsertBatch(db, specs), id, name)
    decreases |specs|
  {
    if |specs| == 0 {
    } else {
      BatchGuard(InsertJob(db, specs[0], DEFAULT_MAX_ATTEMPTS), specs[1..], id, name);
    }
  }

  /** Once a worker's write has taken effect (or its lease was taken away), nothing it writes from
      the same snapshot takes effect, whatever else happens: in particular not the second write
      tried after a recovered panic. */
  lemma {:induction false} SpentForever(s: Sys, ls: seq<Label>, pid: int)
    requires Inv(s) && Run(s, ls) && Spent(s, pid)
    requires forall l | l in ls :: !LetsGo(l, pid)
    ensures Spent(Exec(s, ls), pid)
    ensures forall o :: StepWrite(Exec(s, ls), pid, o) == Exec(s, ls)
    decreases |ls|
  {
    if |ls| == 0 {
    } else {
      StepKeepsSpent(s, ls[0], pid);
      StepKeepsInv(s, ls[0]);
      SpentForever(Next(s, ls[0]), ls[1..], pid);
    }
  }

  lemma SecondWriteIsNoOp(s0: Sys, ls: seq<Label>, pid: int, o: Outcome, more: seq<Label>, o': Outcome)
    requires Init(s0) && Run(s0, ls) && Enabled(Exec(s0, ls), Write(pid, o))
    requires Run(Next(Exec(s0, ls), Write(pid, o)), more)
    requires forall l | l in more :: !LetsGo(l, pid)
    ensures var s := Exec(Next(Exec(s0, ls), Write(pid, o)), more);
            Busy(s, pid) && StepWrite(s, pid, o') == s
  {
    var s := Exec(s0, ls);
    RunKeepsInv(s0, ls);
    assert Fenced(s, s.workers[pid]);
    StepKeepsInv(s, Write(pid, o));
    SpentForever(Next(s, Write(pid, o)), more, pid);
  }

  /** For every job ever created, deleted ones included, the i-th recorded ending belongs to lease i. */
  ghost predicate SerialsInOrder(s: Sys) {
    forall id | id in s.endings ::
      forall i | 0 <= i < |s.endings[id]| :: s.endings[id][i].serial == i + 1
  }

  lemma StepKeepsSerials(s: Sys, l: Label)
    requires Inv(s) && NamesDistinct(s) && Enabled(s, l) && SerialsInOrder(s)
    ensures SerialsInOrder(Next(s, l))
  {
    var s' := Next(s, l);
    StepKeepsInv(s, l);
    forall id | id in s'.endings
      ensures forall i | 0 <= i < |s'.endings[id]| :: s'.endings[id][i].serial == i + 1
    {
      if id in s'.db.jobs {
        assert CellOk(CellOf(s', id), s'.db.now);
      }
    }
  }

  /** At most one outcome, expiry or drain per lease, over the whole life of every job. */
  lemma {:induction false} OneEndingPerLease(s0: Sys, ls: seq<Label>)
    requires Inv(s0) && SerialsInOrder(s0) && Run(s0, ls)
    ensures SerialsInOrder(Exec(s0, ls))
    ensures forall id | id in Exec(s0, ls).endings ::
              var es := Exec(s0, ls).endings[id];
              forall i, j | 0 <= i < j < |es| :: es[i].serial != es[j].serial
    decreases |ls|
  {
    if |ls| == 0 {
    } else {
      StepKeepsSerials(s0, ls[0]);
      StepKeepsInv(s0, ls[0]);
      OneEndingPerLease(Next(s0, ls[0]), ls[1..]);
    }
  }

  // ---- audit --------------------------------------------------------------------

  /** The log of every surviving job: an optional enqueue event, then exactly the events of its
      ended leases in order, closed by the event of its terminal status; attempts counts the
      fail and dead events. */
  lemma AuditLaw(s0: Sys, ls: seq<Label>, id: int)
    requires Init(s0) && Run(s0, ls) && id in Exec(s0, ls).db.jobs
    ensures var s := Exec(s0, ls);
            var log, row := Log(s.db.events, id), s.db.jobs[id];
            && AuditShape(row.status, log)
            && row.attempts == multiset(log)[EvFail] + multiset(log)[EvDead]
            && Body(log) == KindsOf(EndingsOf(s, id))
  {
    RunKeepsInv(s0, ls);
    assert CellOk(CellOf(Exec(s0, ls), id), Exec(s0, ls).db.now);
  }

  /** The shape written out: log = head + middle + tail. */
  lemma AuditSplit(status: Status, log: seq<EventKind>) returns (a: nat, b: nat)
    requires AuditShape(status, log)
    ensures a <= b <= |log| && a <= 1 && |log| - b <= 1
    ensures a == 1 ==> log[0] == EvEnqueue
    ensures forall i | a <= i < b :: log[i] == EvFail || log[i] == EvExpire
    ensures |log| - b == 1 <==> Terminal(status)
    ensures Terminal(status) ==> Some(log[b]) == ClosingKind(status)
  {
    a := if |log| > 0 && log[0] == EvEnqueue then 1 else 0;
    b := if Terminal(status) then |log| - 1 else |log|;
    forall i | a <= i < b ensures log[i] == EvFail || log[i] == EvExpire {
      assert log[i] != EvLease && !Closing(log[i]);
      assert log[i] != EvEnqueue;
    }
  }

  // ---- accounting and termination --------------------------------------------------

  function Drains(es: seq<Ending>): nat {
    if |es| == 0 then 0 else Drains(es[..|es| - 1]) + (if es[|es| - 1].kind.None? then 1 else 0)
  }

  function Expiries(es: seq<Ending>): nat {
    if |es| == 0 then 0 else Expiries(es[..|es| - 1]) + (if es[|es| - 1].kind == Some(EvExpire) then 1 else 0)
  }

  /** The endings that are neither expiries nor drains. */
  function Outcomes(es: seq<Ending>): nat {
    if |es| == 0 then 0
    else Outcomes(es[..|es| - 1]) + (if es[|es| - 1].kind.Some? && es[|es| - 1].kind != Some(EvExpire) then 1 else 0)
  }

  lemma {:induction false} EndingsPartition(es: seq<Ending>)
    ensures |es| == Outcomes(es) + Expiries(es) + Drains(es)
    ensures |KindsOf(es)| == Outcomes(es) + Expiries(es)
    ensures multiset(KindsOf(es))[EvExpire] == Expiries(es)
  {
    if |es| == 0 {
    } else {
      EndingsPartition(es[..|es| - 1]);
    }
  }

  lemma BodyCounts(log: seq<EventKind>, k: EventKind)
    requires k != EvEnqueue
    ensures multiset(Body(log))[k] == multiset(log)[k]
  {
    if |log| > 0 && log[0] == EvEnqueue {
      assert log == [log[0]] + log[1..];
    }
  }

  /** A closed log holds one success or skip event, an open or dead one none. */
  lemma ClosedOnce(status: Status, log: seq<EventKind>)
    requires AuditShape(status, log)
    ensures multiset(log)[EvSuccess] + multiset(log)[EvSkip]
            == if status == Succeeded || status == Skipped then 1 else 0
  {
    if |log| > 0 {
      var front, last := log[..|log| - 1], log[|log| - 1];
      assert log == front + [last];
      assert forall i | 0 <= i < |front| :: front[i] == log[i];
      assert EvSuccess !in front && EvSkip !in front;
    }
  }

  lemma {:induction false} KindTotal(log: seq<EventKind>)
    requires forall i | 0 <= i < |log| :: log[i] != EvEnqueue && log[i] != EvLease
    ensures |log| == multiset(log)[EvFail] + multiset(log)[EvDead] + multiset(log)[EvSuccess]
                     + multiset(log)[EvSkip] + multiset(log)[EvExpire]
  {
    if |log| == 0 {
    } else {
      var front := log[..|log| - 1];
      KindTotal(front);
      assert log == front + [log[|log| - 1]];
    }
  }

  lemma BodyTotal(status: Status, log: seq<EventKind>)
    requires AuditShape(status, log)
    ensures |Body(log)| == multiset(log)[EvFail] + multiset(log)[EvDead] + multiset(Body(log))[EvExpire]
                           + (if status == Succeeded || status == Skipped then 1 else 0)
  {
    var body := Body(log);
    assert |body| == multiset(body)[EvFail] + multiset(body)[EvDead] + multiset(body)[EvSuccess]
                     + multiset(body)[EvSkip] + multiset(body)[EvExpire] by {
      KindTotal(body);
    }
    ClosedOnce(status, log);
    BodyCounts(log, EvFail);
    BodyCounts(log, EvDead);
    BodyCounts(log, EvSuccess);
    BodyCounts(log, EvSkip);
  }

  lemma OutcomesAreCounted(c: Cell, now: int)
    requires CellOk(c, now)
    ensures Outcomes(c.endings)
            == c.row.attempts + (if c.row.status == Succeeded || c.row.status == Skipped then 1 else 0)
  {
    EndingsPartition(c.endings);
    BodyTotal(c.row.status, c.log);
  }

  /** Every lease of a surviving job is accounted for, and the attempt budget bounds them. */
  lemma LeaseAccounting(s0: Sys, ls: seq<Label>, id: int)
    requires Init(s0) && Run(s0, ls) && id in Exec(s0, ls).db.jobs
    ensures var s := Exec(s0, ls);
            var row, es := s.db.jobs[id], EndingsOf(s, id);
            && LeasesOf(s, id) == Outcomes(es) + Expiries(es) + Drains(es) + (if row.status == Leased then 1 else 0)
            && (if row.status == Dead then row.attempts <= row.maxAttempts else row.attempts < row.maxAttempts)
            && Outcomes(es) + (if row.status == Leased then 1 else 0) <= row.maxAttempts
            && LeasesOf(s, id) <= row.maxAttempts + Expiries(es) + Drains(es)
  {
    RunKeepsInv(s0, ls);
    var s := Exec(s0, ls);
    assert CellOk(CellOf(s, id), s.db.now);
    EndingsPartition(EndingsOf(s, id));
    OutcomesAreCounted(CellOf(s, id), s.db.now);
  }

  /** A surviving job has one attempt counted per lease if and only if no lease of it expired or was drained,
      none is in progress and none succeeded or was skipped. */
  lemma AttemptPerLeaseIff(s0: Sys, ls: seq<Label>, id: int)
    requires Init(s0) && Run(s0, ls) && id in Exec(s0, ls).db.jobs
    ensures var s := Exec(s0, ls);
            var row, es := s.db.jobs[id], EndingsOf(s, id);
            row.attempts == LeasesOf(s, id) <==>
            Expiries(es) == 0 && Drains(es) == 0 && (row.status == Pending || row.status == Dead)
  {
    RunKeepsInv(s0, ls);
    var s := Exec(s0, ls);
    assert CellOk(CellOf(s, id), s.db.now);
    LeaseAccounting(s0, ls, id);
    OutcomesAreCounted(CellOf(s, id), s.db.now);
  }

  /** A job with as many failures recorded as its budget is dead, whatever else ended its other leases. An
      error and a recovered panic are recorded alike. */
  lemma AlwaysFailingDies(s0: Sys, ls: seq<Label>, id: int)
    requires Init(s0) && Run(s0, ls) && id in Exec(s0, ls).db.jobs
    requires var log := Log(Exec(s0, ls).db.events, id);
             multiset(log)[EvFail] + multiset(log)[EvDead] >= Exec(s0, ls).db.jobs[id].maxAttempts
    ensures var s := Exec(s0, ls);
            s.db.jobs[id].status == Dead && s.db.jobs[id].attempts == s.db.jobs[id].maxAttempts
  {
    RunKeepsInv(s0, ls);
    assert CellOk(CellOf(Exec(s0, ls), id), Exec(s0, ls).db.now);
  }

  // ---- expiry -----------------------------------------------------------------------

  lemma SweepExact(s: Sys, threshold: int, order: seq<int>, id: int)
    requires Enabled(s, DoSweep(threshold, order)) && id in s.db.jobs && RowOk(s.db.jobs[id], s.db.now)
    ensures var db, db' := s.db, StepSweep(s, threshold, order).db;
            if db.jobs[id].status == Leased && db.jobs[id].lockedAt.value < db.now - threshold
               then Due(db', id) && db'.jobs[id].attempts == db.jobs[id].attempts
                    && db'.jobs[id].nextRunAt == db.jobs[id].nextRunAt
                    && Log(db'.events, id) == Log(db.events, id) + [EvExpire]
               else db'.jobs[id] == db.jobs[id] && Log(db'.events, id) == Log(db.events, id)
  {
    SweepCellOf(s, threshold, order, id);
    assert CellOf(s, id).row == s.db.jobs[id];
  }

  /** A sweep recovers exactly the over-age leases: one expire event each, attempts untouched,
      every recovered row due at once. */
  lemma SweepRecoversExactly(s0: Sys, ls: seq<Label>, threshold: int, order: seq<int>)
    requires Init(s0) && Run(s0, ls) && Enabled(Exec(s0, ls), DoSweep(threshold, order))
    ensures var db, db' := Exec(s0, ls).db, Next(Exec(s0, ls), DoSweep(threshold, order)).db;
            && db'.jobs.Keys == db.jobs.Keys
            && |db'.events| == |db.events| + |ExpiredIds(db, threshold)|
            && forall id | id in db.jobs ::
                 if db.jobs[id].status == Leased && db.jobs[id].lockedAt.Some?
                    && db.jobs[id].lockedAt.value < db.now - threshold
                 then Due(db', id) && db'.jobs[id].attempts == db.jobs[id].attempts
                      && db'.jobs[id].nextRunAt == db.jobs[id].nextRunAt
                      && Log(db'.events, id) == Log(db.events, id) + [EvExpire]
                 else db'.jobs[id] == db.jobs[id] && Log(db'.events, id) == Log(db.events, id)
  {
    var s := Exec(s0, ls);
    NoDupCardinality(order);
    forall id | id in s.db.jobs ensures RowOk(s.db.jobs[id], s.db.now) {
      RunKeepsInv(s0, ls);
      assert CellOk(CellOf(s, id), s.db.now);
    }
    forall id | id in s.db.jobs {
      SweepExact(s, threshold, order, id);
    }
  }

  /** The worker is still inside its lease. */
  predicate Holds(s: Sys, pid: int) {
    Busy(s, pid) && Guard(s.db, s.workers[pid].job.value.id, s.workers[pid].name)
  }

  predicate Patient(l: Label, pid: int, threshold: int) {
    && (l.DoSweep? ==> l.threshold >= threshold)
    && (l.Write? ==> l.pid != pid)
    && !LetsGo(l, pid)
  }

  lemma StepKeepsHold(s: Sys, l: Label, pid: int, threshold: int)
    requires Keyed(s.db) && NamesDistinct(s) && Enabled(s, l) && Holds(s, pid) && Patient(l, pid, threshold)
    requires s.db.jobs[s.workers[pid].job.value.id].lockedAt.Some?
    requires s.db.now <= s.db.jobs[s.workers[pid].job.value.id].lockedAt.value + threshold
    ensures Holds(Next(s, l), pid) && Next(s, l).workers[pid] == s.workers[pid]
  {
    var w := s.workers[pid];
    if l.Write? {
      assert s.workers[l.pid].name != w.name;
    } else if l.DoInsertBatch? {
      BatchHold(s.db, l.specs, w.job.value.id, w.name);
    }
  }

  lemma {:induction false} BatchHold(db: Db, specs: seq<JobSpec>, id: int, name: string)
    requires Guard(db, id, name) && id < db.nextId
    ensures Guard(InsertBatch(db, specs), id, name)
    decreases |specs|
  {
    if |specs| == 0 {
    } else {
      BatchHold(InsertJob(db, specs[0], DEFAULT_MAX_ATTEMPTS), specs[1..], id, name);
    }
  }

  lemma {:induction false} ClockAdvances(s: Sys, ls: seq<Label>)
    requires Run(s, ls)
    ensures s.db.now <= Exec(s, ls).db.now
    decreases |ls|
  {
    if |ls| == 0 {
    } else {
      if ls[0].DoInsertBatch? { BatchClock(s.db, ls[0].specs); }
      ClockAdvances(Next(s, ls[0]), ls[1..]);
    }
  }

  lemma {:induction false} BatchClock(db: Db, specs: seq<JobSpec>)
    ensures InsertBatch(db, specs).now == db.now && db.nextId <= InsertBatch(db, specs).nextId
    decreases |specs|
  {
    if |specs| == 0 {
    } else {
      BatchClock(InsertJob(db, specs[0], DEFAULT_MAX_ATTEMPTS), specs[1..]);
    }
  }

  /** A worker that writes no later than locked_at + threshold is still inside its lease,
      whatever the rest of the system did meanwhile. */
  lemma {:induction false} ThresholdSafety(s: Sys, ls: seq<Label>, pid: int, threshold: int)
    requires Inv(s) && Run(s, ls) && Holds(s, pid)
    requires forall l | l in ls :: Patient(l, pid, threshold)
    requires var since := s.workers[pid].job.value.row.lockedAt;
             since.Some? ==> Exec(s, ls).db.now <= since.value + threshold
    ensures Holds(Exec(s, ls), pid) && Exec(s, ls).workers[pid] == s.workers[pid]
    decreases |ls|
  {
    if |ls| == 0 {
    } else {
      ClockAdvances(s, ls);
      assert Fenced(s, s.workers[pid]);
      assert CellOk(CellOf(s, s.workers[pid].job.value.id), s.db.now);
      StepKeepsHold(s, ls[0], pid, threshold);
      StepKeepsInv(s, ls[0]);
      ThresholdSafety(Next(s, ls[0]), ls[1..], pid, threshold);
    }
  }

  /** The write of such a worker takes effect: it ends the lease it was given. */
  lemma TimelyWriteLands(s0: Sys, ls: seq<Label>, more: seq<Label>, pid: int, threshold: int, o: Outcome)
    requires Init(s0) && Run(s0, ls) && Holds(Exec(s0, ls), pid) && Run(Exec(s0, ls), more)
    requires forall l | l in more :: Patient(l, pid, threshold)
    requires var since := Exec(s0, ls).workers[pid].job.value.row.lockedAt;
             since.Some? ==> Exec(Exec(s0, ls), more).db.now <= since.value + threshold
    ensures var s := Exec(Exec(s0, ls), more);
            && Busy(s, pid)
            && var snap, s' := s.workers[pid].job.value, StepWrite(s, pid, o);
               && snap == Exec(s0, ls).workers[pid].job.value
               && snap.id in s'.db.jobs && s'.db.jobs[snap.id] == OutcomeRow(snap.row, snap.row, o, s.db.now)
               && EndingsOf(s', snap.id)
                  == EndingsOf(s, snap.id) + [Ending(LeasesOf(s, snap.id), Some(OutcomeKind(snap.row, o)))]
  {
    var held := Exec(s0, ls);
    RunKeepsInv(s0, ls);
    ThresholdSafety(held, more, pid, threshold);
    RunKeepsInv(held, more);
    assert Fenced(Exec(held, more), held.workers[pid]);
  }
}
