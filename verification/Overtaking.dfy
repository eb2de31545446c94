/** Bounded overtaking: how many leases can go to other jobs before a due job gets its own. */
module Overtaking {
  import opened Common
  import opened Durations
  import opened JobTable
  import opened LeaseProtocol
  import opened LeaseInvariant

  /** The due jobs the lease statement would pick before `id`. */
  function Ahead(db: Db, id: int): set<int>
    requires id in db.jobs
  {
    set j | j in db.jobs && j != id && Due(db, j) && Before(db, j, id)
  }

  /** The largest attempt budget for which every retry delay is a positive duration. */
  const MODEST_BUDGET := 33

  ghost predicate Modest(s: Sys) {
    && (forall id | id in s.db.jobs :: s.db.jobs[id].maxAttempts <= MODEST_BUDGET)
    && (forall p | p in s.workers && s.workers[p].job.Some? :: s.workers[p].job.value.row.maxAttempts <= MODEST_BUDGET)
  }

  /** A step that hands no lease back, and enqueues no budget beyond the given one. */
  predicate Calm(s: Sys, l: Label, budget: int) {
    && (l.DoSweep? ==> ExpiredIds(s.db, l.threshold) == {})
    && (l.Shutdown? && l.pid in s.workers ==> LeasedBy(s.db, s.workers[l.pid].name) == {})
    && (l.DoEnqueue? ==> l.maxAttempts <= budget)
  }

  predicate Takes(l: Label, id: int) {
    l.Lease? && l.id == Some(id)
  }

  lemma {:induction false} BatchAhead(db: Db, specs: seq<JobSpec>, id: int)
    requires Keyed(db) && Due(db, id)
    ensures Due(InsertBatch(db, specs), id) && Ahead(InsertBatch(db, specs), id) == Ahead(db, id)
    decreases |specs|
  {
    if |specs| == 0 {
    } else {
      var db' := InsertJob(db, specs[0], DEFAULT_MAX_ATTEMPTS);
      assert Ahead(db', id) == Ahead(db, id);
      BatchAhead(db', specs[1..], id);
    }
  }

  lemma {:induction false} BatchModest(s: Sys, specs: seq<JobSpec>)
    requires Modest(s)
    ensures Modest(s.(db := InsertBatch(s.db, specs)))
    decreases |specs|
  {
    if |specs| == 0 {
    } else {
      BatchModest(s.(db := InsertJob(s.db, specs[0], DEFAULT_MAX_ATTEMPTS)), specs[1..]);
    }
  }

  lemma StepKeepsModest(s: Sys, l: Label)
    requires Modest(s) && Enabled(s, l) && Calm(s, l, MODEST_BUDGET)
    ensures Modest(Next(s, l))
  {
    if l.DoInsertBatch? {
      BatchModest(s, l.specs);
    }
  }

  /** Whether a retry written now with this delay comes before the job in lease order. */
  predicate GoesAhead(db: Db, retried: int, delayMs: int, id: int)
    requires id in db.jobs
  {
    var at, due := db.now + delayMs * 1000, db.jobs[id].nextRunAt;
    at < due || (at == due && retried < id)
  }

  /** A retry raises the number of jobs ahead of a due job, by one, exactly when its new time is earlier. */
  lemma RetryRank(s: Sys, pid: int, delayMs: int, id: int)
    requires WorkersFenced(s) && Busy(s, pid) && Due(s.db, id)
    requires Guard(s.db, s.workers[pid].job.value.id, s.workers[pid].name)
    requires !Exhausted(s.workers[pid].job.value.row)
    ensures var db', retried := StepWrite(s, pid, Retry(delayMs)).db, s.workers[pid].job.value.id;
            && Due(db', id) && retried !in Ahead(s.db, id)
            && Ahead(db', id) == Ahead(s.db, id) + (if GoesAhead(s.db, retried, delayMs, id) then {retried} else {})
  {
    var snap := s.workers[pid].job.value;
    assert Fenced(s, s.workers[pid]);
    var db' := StepWrite(s, pid, Retry(delayMs)).db;
    assert forall j | j in s.db.jobs && j != snap.id :: db'.jobs[j] == s.db.jobs[j];
  }

  lemma DrawnPositive(k: int, delayMs: int)
    requires DelayDrawn(k, delayMs) && 1 <= k <= 32
    ensures delayMs > 0
  {
    var u, overflow :| 0.0 <= u < 1.0 && delayMs == RetryMillis(k, u, overflow);
    RetryMillisBounds(k, u, overflow);
  }

  /** A retry within a modest budget is put behind every job that is due when it is written. */
  lemma RetryGoesBehind(s: Sys, pid: int, o: Outcome, id: int)
    requires Modest(s) && WorkersFenced(s) && Enabled(s, Write(pid, o)) && Due(s.db, id)
    ensures var db' := StepWrite(s, pid, o).db; Due(db', id) && Ahead(db', id) == Ahead(s.db, id)
  {
    var w := s.workers[pid];
    var snap := w.job.value;
    assert Fenced(s, w);
    if Guard(s.db, snap.id, w.name) {
      if o.Retry? && !Exhausted(snap.row) {
        DrawnPositive(snap.row.attempts + 1, o.delayMs);
        RetryRank(s, pid, o.delayMs, id);
      }
    }
  }

  /** A lease of another job takes away one of the jobs ahead. */
  lemma LeaseShortensQueue(db: Db, j: int, name: string, id: int)
    requires IsNext(db, j) && Due(db, id) && j != id
    ensures j in Ahead(db, id)
    ensures Due(TakeLease(db, j, name), id) && Ahead(TakeLease(db, j, name), id) == Ahead(db, id) - {j}
  {
  }

  lemma OtherStepRank(s: Sys, l: Label, id: int)
    requires Keyed(s.db) && Enabled(s, l) && Calm(s, l, MODEST_BUDGET) && Due(s.db, id)
    requires !l.Write? && !l.Lease?
    ensures Due(Next(s, l).db, id) && Ahead(Next(s, l).db, id) == Ahead(s.db, id)
  {
    if l.DoInsertBatch? {
      BatchAhead(s.db, l.specs, id);
    }
  }

  /** No step raises the number of jobs ahead; a lease of another job lowers it by one. */
  lemma StepRank(s: Sys, l: Label, id: int)
    requires Inv(s) && Modest(s) && Enabled(s, l) && Calm(s, l, MODEST_BUDGET) && Due(s.db, id) && !Takes(l, id)
    ensures Due(Next(s, l).db, id)
    ensures |Ahead(Next(s, l).db, id)| == |Ahead(s.db, id)| - (if l.Lease? && l.id.Some? then 1 else 0)
  {
    if l.Write? {
      RetryGoesBehind(s, l.pid, l.o, id);
    } else if l.Lease? {
      if l.id.Some? {
        LeaseShortensQueue(s.db, l.id.value, s.workers[l.pid].name, id);
      }
    } else {
      OtherStepRank(s, l, id);
    }
  }

  ghost predicate CalmRun(s: Sys, ls: seq<Label>, budget: int)
    decreases |ls|
  {
    Run(s, ls) && (|ls| > 0 ==> Calm(s, ls[0], budget) && CalmRun(Next(s, ls[0]), ls[1..], budget))
  }

  function LeasesTaken(ls: seq<Label>): nat {
    if |ls| == 0 then 0 else LeasesTaken(ls[1..]) + (if ls[0].Lease? && ls[0].id.Some? then 1 else 0)
  }

  /** As long as the job is not leased, every lease taken by others uses up one unit of its rank. */
  lemma {:induction false} LeasesBoundedByRank(s: Sys, ls: seq<Label>, id: int)
    requires Inv(s) && Modest(s) && CalmRun(s, ls, MODEST_BUDGET) && Due(s.db, id)
    requires forall l | l in ls :: !Takes(l, id)
    ensures Due(Exec(s, ls).db, id)
    ensures LeasesTaken(ls) + |Ahead(Exec(s, ls).db, id)| == |Ahead(s.db, id)|
    decreases |ls|
  {
    if |ls| == 0 {
    } else {
      StepRank(s, ls[0], id);
      StepKeepsInv(s, ls[0]);
      StepKeepsModest(s, ls[0]);
      LeasesBoundedByRank(Next(s, ls[0]), ls[1..], id);
    }
  }

  /** In a run with more leases than jobs ahead of it, the job itself is leased. */
  lemma BoundedOvertaking(s: Sys, ls: seq<Label>, id: int)
    requires Inv(s) && Modest(s) && CalmRun(s, ls, MODEST_BUDGET) && Due(s.db, id)
    requires LeasesTaken(ls) > |Ahead(s.db, id)|
    ensures exists i | 0 <= i < |ls| :: Takes(ls[i], id)
  {
    if !exists i | 0 <= i < |ls| :: Takes(ls[i], id) {
      LeasesBoundedByRank(s, ls, id);
    }
  }
}
