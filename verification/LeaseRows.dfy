/** What the steps of the lease protocol do to a row, column by column, and what retention makes of it. */
module LeaseRows {
  import opened Common
  import opened JobTable
  import opened LeaseProtocol
  import opened LeaseInvariant

  // ---- drains ------------------------------------------------------------------------

  /** A lease that ends without an outcome: the row is due at once, and only its lease is gone. */
  ghost predicate HandedBack(s: Sys, s': Sys, id: int)
    requires id in s.db.jobs
  {
    && Due(s'.db, id)
    && s'.db.jobs[id] == s.db.jobs[id].(status := Pending, lockedAt := None, lockedBy := None, updatedAt := s.db.now)
    && EndingsOf(s', id) == EndingsOf(s, id) + [Ending(LeasesOf(s, id), None)]
  }

  lemma DrainRow(s: Sys, pid: int, id: int)
    requires Idle(s, pid) && id in s.db.jobs && RowOk(s.db.jobs[id], s.db.now)
    ensures var s', name := StepShutdown(s, pid), s.workers[pid].name;
            && id in s'.db.jobs && !Guard(s'.db, id, name)
            && if s.db.jobs[id].status == Leased && s.db.jobs[id].lockedBy == Some(name) then HandedBack(s, s', id)
               else s'.db.jobs[id] == s.db.jobs[id] && EndingsOf(s', id) == EndingsOf(s, id)
  {
  }

  /** A shutdown hands back exactly the rows leased under the worker's name, and writes no event. */
  lemma DrainHandsBackExactly(s0: Sys, ls: seq<Label>, pid: int)
    requires Init(s0) && Run(s0, ls) && Enabled(Exec(s0, ls), Shutdown(pid))
    ensures var s, s' := Exec(s0, ls), Next(Exec(s0, ls), Shutdown(pid));
            var name := s.workers[pid].name;
            && s'.db.jobs.Keys == s.db.jobs.Keys && s'.db.events == s.db.events
            && (forall id | id in s'.db.jobs :: !Guard(s'.db, id, name))
            && (forall id | id in s.db.jobs ::
                  if s.db.jobs[id].status == Leased && s.db.jobs[id].lockedBy == Some(name) then HandedBack(s, s', id)
                  else s'.db.jobs[id] == s.db.jobs[id] && EndingsOf(s', id) == EndingsOf(s, id))
  {
    RunKeepsInv(s0, ls);
    var s := Exec(s0, ls);
    forall id | id in s.db.jobs ensures RowOk(s.db.jobs[id], s.db.now) {
      RowsOk(s, id);
    }
    forall id | id in s.db.jobs {
      DrainRow(s, pid, id);
    }
  }

  // ---- outcomes ----------------------------------------------------------------------

  /** What is left of a row's lease: nothing. */
  function Freed(row: Row, status: Status, attempts: int, now: int): Row {
    row.(status := status, attempts := attempts, lockedAt := None, lockedBy := None, updatedAt := now)
  }

  /** The row and the event an outcome leaves, as the statements have them. */
  predicate RecordedAs(row: Row, o: Outcome, now: int, row': Row, kind: EventKind) {
    match o
    case Success => row' == Freed(row, Succeeded, row.attempts, now) && kind == EvSuccess
    case SkipJob => row' == Freed(row, Skipped, row.attempts, now) && kind == EvSkip
    case Permanent => row' == Freed(row, Dead, row.attempts + 1, now) && kind == EvDead
    case Retry(delayMs) =>
      if row.attempts + 1 < row.maxAttempts then
        row' == Freed(row, Pending, row.attempts + 1, now).(nextRunAt := now + delayMs * 1000) && kind == EvFail
      else row' == Freed(row, Dead, row.attempts + 1, now) && kind == EvDead
  }

  lemma GuardedRecorded(s: Sys, pid: int, o: Outcome)
    requires Busy(s, pid) && Fenced(s, s.workers[pid])
    requires Guard(s.db, s.workers[pid].job.value.id, s.workers[pid].name)
    ensures var db', id := StepWrite(s, pid, o).db, s.workers[pid].job.value.id;
            && id in db'.jobs && |db'.events| == |s.db.events| + 1
            && RecordedAs(s.db.jobs[id], o, s.db.now, db'.jobs[id], db'.events[|s.db.events|].kind)
  {
  }

  /** In every run an outcome that takes effect is recorded on the row as it is, although the statement computes
      from the snapshot. */
  lemma OutcomeRecorded(s0: Sys, ls: seq<Label>, pid: int, o: Outcome)
    requires Init(s0) && Run(s0, ls) && Enabled(Exec(s0, ls), Write(pid, o))
    requires var s := Exec(s0, ls); Guard(s.db, s.workers[pid].job.value.id, s.workers[pid].name)
    ensures var s, db' := Exec(s0, ls), Next(Exec(s0, ls), Write(pid, o)).db;
            var id := s.workers[pid].job.value.id;
            && id in db'.jobs && |db'.events| == |s.db.events| + 1
            && RecordedAs(s.db.jobs[id], o, s.db.now, db'.jobs[id], db'.events[|s.db.events|].kind)
  {
    RunKeepsInv(s0, ls);
    assert Fenced(Exec(s0, ls), Exec(s0, ls).workers[pid]);
    GuardedRecorded(Exec(s0, ls), pid, o);
  }

  // ---- stamps ---------------------------------------------------------------------------

  /** The row as the insert statements make it. */
  predicate IsNew(row: Row, now: int) {
    && row.status == Pending && row.attempts == 0 && row.lockedAt == None && row.lockedBy == None
    && row.nextRunAt == now && row.createdAt == now && row.updatedAt == now
  }

  /** The row is as it was, or was written just now. */
  predicate Stamped(was: Db, db: Db, id: int) {
    id in db.jobs ==>
      if id in was.jobs then db.jobs[id] == was.jobs[id] || db.jobs[id].updatedAt == was.now
      else IsNew(db.jobs[id], was.now)
  }

  lemma {:induction false} BatchStamps(db: Db, specs: seq<JobSpec>, id: int)
    requires Keyed(db)
    ensures var db' := InsertBatch(db, specs);
            Stamped(db, db', id) && (id in db.jobs ==> id in db'.jobs && db'.jobs[id] == db.jobs[id])
    ensures id in InsertBatch(db, specs).jobs && id !in db.jobs ==> InsertBatch(db, specs).jobs[id].maxAttempts == 5
    decreases |specs|
  {
    if |specs| == 0 {
    } else {
      BatchStamps(InsertJob(db, specs[0], DEFAULT_MAX_ATTEMPTS), specs[1..], id);
    }
  }

  lemma StepStamps(s: Sys, l: Label, id: int)
    requires Keyed(s.db) && Enabled(s, l)
    ensures Stamped(s.db, Next(s, l).db, id)
  {
    if l.DoInsertBatch? {
      BatchStamps(s.db, l.specs, id);
    }
  }

  /** Nothing but retention touches a job that is done. */
  lemma StepKeepsDone(s: Sys, l: Label, id: int)
    requires Keyed(s.db) && Enabled(s, l) && id in s.db.jobs && Terminal(s.db.jobs[id].status)
    ensures id in Next(s, l).db.jobs || l.DoRetain?
    ensures id in Next(s, l).db.jobs ==> Next(s, l).db.jobs[id] == s.db.jobs[id]
  {
    if l.DoInsertBatch? {
      BatchStamps(s.db, l.specs, id);
    }
  }

  predicate IsDone(db: Db, id: int) {
    id in db.jobs
    && (db.jobs[id].status == Succeeded || db.jobs[id].status == Skipped || db.jobs[id].status == Dead)
  }

  /** When the job last became succeeded, skipped or dead in the run; `otherwise` if it never did. */
  ghost function DoneAt(s: Sys, ls: seq<Label>, id: int, otherwise: int): int
    requires Run(s, ls)
    decreases |ls|
  {
    if |ls| == 0 then otherwise
    else
      var s' := Next(s, ls[0]);
      DoneAt(s', ls[1..], id, if IsDone(s'.db, id) && !IsDone(s.db, id) then s.db.now else otherwise)
  }

  lemma {:induction false} StampIsDoneAt(s: Sys, ls: seq<Label>, id: int, at: int)
    requires Inv(s) && Run(s, ls) && (IsDone(s.db, id) ==> s.db.jobs[id].updatedAt == at)
    ensures var db := Exec(s, ls).db; IsDone(db, id) ==> db.jobs[id].updatedAt == DoneAt(s, ls, id, at)
    decreases |ls|
  {
    if |ls| == 0 {
    } else {
      var s' := Next(s, ls[0]);
      StepKeepsInv(s, ls[0]);
      StepStamps(s, ls[0], id);
      if IsDone(s.db, id) {
        StepKeepsDone(s, ls[0], id);
      }
      StampIsDoneAt(s', ls[1..], id, if IsDone(s'.db, id) && !IsDone(s.db, id) then s.db.now else at);
    }
  }

  /** In every run, retention deletes a job if and only if it became succeeded, skipped or dead longer ago than
      the window. */
  lemma DeletedByAge(s0: Sys, ls: seq<Label>, window: int, id: int)
    requires Init(s0) && Run(s0, ls) && id in Exec(s0, ls).db.jobs
    ensures var s := Exec(s0, ls);
            id !in Next(s, DoRetain(window)).db.jobs <==>
            IsDone(s.db, id) && DoneAt(s0, ls, id, 0) < s.db.now - window
  {
    StampIsDoneAt(s0, ls, id, 0);
  }

  // ---- crashes -----------------------------------------------------------------------

  ghost predicate NobodyNamed(s: Sys, name: string) {
    forall p | p in s.workers :: s.workers[p].name != name
  }

  /** Neither a sweep nor a loop of that name. */
  predicate LeavesAlone(l: Label, name: string) {
    !l.DoSweep? && (l.Start? ==> l.name != name)
  }

  lemma StepLeavesLease(s: Sys, l: Label, id: int, name: string)
    requires Keyed(s.db) && NobodyNamed(s, name) && Guard(s.db, id, name) && Enabled(s, l) && LeavesAlone(l, name)
    ensures NobodyNamed(Next(s, l), name)
    ensures id in Next(s, l).db.jobs && Next(s, l).db.jobs[id] == s.db.jobs[id]
  {
    if l.DoInsertBatch? {
      BatchStamps(s.db, l.specs, id);
    }
  }

  lemma {:induction false} RunLeavesLease(s: Sys, ls: seq<Label>, id: int, name: string)
    requires Inv(s) && Run(s, ls) && NobodyNamed(s, name) && Guard(s.db, id, name)
    requires forall l | l in ls :: LeavesAlone(l, name)
    ensures id in Exec(s, ls).db.jobs && Exec(s, ls).db.jobs[id] == s.db.jobs[id]
    decreases |ls|
  {
    if |ls| == 0 {
    } else {
      assert ls[0] in ls;
      StepLeavesLease(s, ls[0], id, name);
      StepKeepsInv(s, ls[0]);
      RunLeavesLease(Next(s, ls[0]), ls[1..], id, name);
    }
  }

  /** The lease of a worker that crashed stays as it is, whatever the others do, until a sweep, or until a loop of
      the same name is started. */
  lemma CrashedLeaseStays(s0: Sys, ls: seq<Label>, pid: int, id: int, more: seq<Label>)
    requires Init(s0) && Run(s0, ls) && Enabled(Exec(s0, ls), Crash(pid))
    requires Guard(Exec(s0, ls).db, id, Exec(s0, ls).workers[pid].name)
    requires Run(Next(Exec(s0, ls), Crash(pid)), more)
    requires forall l | l in more :: LeavesAlone(l, Exec(s0, ls).workers[pid].name)
    ensures var s, s' := Exec(s0, ls), Exec(Next(Exec(s0, ls), Crash(pid)), more);
            id in s'.db.jobs && s'.db.jobs[id] == s.db.jobs[id]
  {
    var s := Exec(s0, ls);
    RunKeepsInv(s0, ls);
    StepKeepsInv(s, Crash(pid));
    RunLeavesLease(Next(s, Crash(pid)), more, id, s.workers[pid].name);
  }
}
