/** Every step of the lease protocol keeps the invariant; hence every run does. */
module LeaseInvariant {
  import opened Common
  import opened JobTable
  import opened LeaseProtocol

  lemma {:induction false} LogOfStranger(events: seq<Event>, id: int)
    requires forall e | e in events :: e.jobId != id
    ensures Log(events, id) == []
  {
    if |events| == 0 {
    } else {
      LogOfStranger(events[..|events| - 1], id);
    }
  }

  ghost predicate TableOk(s: Sys) {
    Keyed(s.db) && EventsOwned(s.db) && HistoryBounded(s)
  }

  lemma InsertedCell(c: Cell, spec: JobSpec, maxAttempts: int, now: int)
    requires 1 <= maxAttempts <= INT_MAX
    requires c == Cell(NewRow(spec, maxAttempts, now), [], 0, [])
    ensures CellOk(c, now)
  {
  }

  lemma InsertCell(s: Sys, s': Sys, spec: JobSpec, maxAttempts: int, j: int)
    requires TableOk(s) && CellsOk(s) && 1 <= maxAttempts <= INT_MAX
    requires s' == s.(db := InsertJob(s.db, spec, maxAttempts))
    requires j in s'.db.jobs
    ensures CellOk(CellOf(s', j), s'.db.now)
  {
    if j in s.db.jobs {
      assert CellOf(s', j) == CellOf(s, j);
    } else {
      LogOfStranger(s.db.events, j);
      InsertedCell(CellOf(s', j), spec, maxAttempts, s.db.now);
    }
  }

  lemma InsertTable(s: Sys, s': Sys, spec: JobSpec, maxAttempts: int)
    requires TableOk(s) && s' == s.(db := InsertJob(s.db, spec, maxAttempts))
    ensures TableOk(s')
  {
  }

  /** Inserting a job keeps the invariant whether or not the key was free. */
  lemma InsertKeeps(s: Sys, s': Sys, spec: JobSpec, maxAttempts: int)
    requires Inv(s) && 1 <= maxAttempts <= INT_MAX
    requires s' == s.(db := InsertJob(s.db, spec, maxAttempts))
    ensures Inv(s')
  {
    InsertTable(s, s', spec, maxAttempts);
    assert CellsOk(s') by {
      forall j | j in s'.db.jobs ensures CellOk(CellOf(s', j), s'.db.now) {
        InsertCell(s, s', spec, maxAttempts, j);
      }
    }
  }

  /** Appending the 'enqueue' event of a job that has none yet. */
  lemma EnqueueEventKeeps(s: Sys, s': Sys, id: int)
    requires Inv(s) && id in s.db.jobs && Log(s.db.events, id) == []
    requires s.db.jobs[id].status == Pending && EndingsOf(s, id) == []
    requires s' == s.(db := s.db.(events := s.db.events + [Event(id, s.db.jobs[id].traceId, EvEnqueue)]))
    ensures Inv(s')
  {
    assert CellsOk(s') by {
      forall j | j in s'.db.jobs ensures CellOk(CellOf(s', j), s'.db.now) {
        EnqueueEventCell(s, s', id, j);
      }
    }
    assert WorkersFenced(s') by {
      forall p | p in s'.workers ensures Fenced(s', s'.workers[p]) {
        assert Fenced(s, s.workers[p]);
      }
    }
  }

  lemma EnqueueEventCellOf(s: Sys, s': Sys, id: int, j: int)
    requires id in s.db.jobs && j in s.db.jobs && Log(s.db.events, id) == []
    requires s' == s.(db := s.db.(events := s.db.events + [Event(id, s.db.jobs[id].traceId, EvEnqueue)]))
    ensures CellOf(s', j) == if j == id then CellOf(s, j).(log := [EvEnqueue]) else CellOf(s, j)
  {
  }

  lemma EnqueueEventCell(s: Sys, s': Sys, id: int, j: int)
    requires CellsOk(s) && id in s.db.jobs && j in s.db.jobs && Log(s.db.events, id) == []
    requires s.db.jobs[id].status == Pending && EndingsOf(s, id) == []
    requires s' == s.(db := s.db.(events := s.db.events + [Event(id, s.db.jobs[id].traceId, EvEnqueue)]))
    ensures CellOk(CellOf(s', j), s'.db.now)
  {
    EnqueueEventCellOf(s, s', id, j);
    assert CellOk(CellOf(s, j), s.db.now);
  }

  lemma EnqueueKeeps(s: Sys, spec: JobSpec, maxAttempts: int)
    requires Inv(s)
    ensures Inv(Next(s, DoEnqueue(spec, maxAttempts)))
  {
    if Accepted(spec, maxAttempts) {
      var mid := s.(db := InsertJob(s.db, spec, Budget(maxAttempts)));
      InsertKeeps(s, mid, spec, Budget(maxAttempts));
      if !KeyTaken(s.db, spec.traceId, spec.dst) {
        LogOfStranger(s.db.events, s.db.nextId);
        EnqueueEventKeeps(mid, s.(db := Enqueue(s.db, spec, maxAttempts)), s.db.nextId);
      }
    }
  }

  lemma {:induction false} BatchKeeps(s: Sys, specs: seq<JobSpec>)
    requires Inv(s)
    ensures Inv(Next(s, DoInsertBatch(specs)))
    decreases |specs|
  {
    if |specs| == 0 {
    } else {
      var mid := s.(db := InsertJob(s.db, specs[0], DEFAULT_MAX_ATTEMPTS));
      InsertKeeps(s, mid, specs[0], DEFAULT_MAX_ATTEMPTS);
      BatchKeeps(mid, specs[1..]);
    }
  }

  lemma LeaseCell(s: Sys, pid: int, id: int, acked: bool, j: int)
    requires CellsOk(s) && pid in s.workers && IsNext(s.db, id) && j in s.db.jobs
    ensures CellOk(CellOf(StepLease(s, pid, id, acked), j), s.db.now)
  {
    var s' := StepLease(s, pid, id, acked);
    if j == id {
      CellLease(CellOf(s, id), CellOf(s', id), s.db.now, s.workers[pid].name);
    } else {
      assert CellOf(s', j) == CellOf(s, j);
    }
  }

  lemma LeaseFences(s: Sys, pid: int, id: int, acked: bool)
    requires Keyed(s.db) && WorkersFenced(s) && NamesDistinct(s) && Idle(s, pid) && IsNext(s.db, id)
    requires RowOk(s.db.jobs[id], s.db.now)
    ensures WorkersFenced(StepLease(s, pid, id, acked))
  {
  }

  lemma RowsOk(s: Sys, id: int)
    requires CellsOk(s) && id in s.db.jobs
    ensures RowOk(s.db.jobs[id], s.db.now)
  {
  }

  lemma LeaseTable(s: Sys, pid: int, id: int, acked: bool)
    requires TableOk(s) && pid in s.workers && id in s.db.jobs
    ensures TableOk(StepLease(s, pid, id, acked))
  {
  }

  lemma LeaseCells(s: Sys, pid: int, id: int, acked: bool)
    requires CellsOk(s) && pid in s.workers && IsNext(s.db, id)
    ensures CellsOk(StepLease(s, pid, id, acked))
  {
    var s' := StepLease(s, pid, id, acked);
    forall j | j in s'.db.jobs ensures CellOk(CellOf(s', j), s'.db.now) {
      LeaseCell(s, pid, id, acked, j);
    }
  }

  lemma LeaseKeeps(s: Sys, pid: int, id: int, acked: bool)
    requires Inv(s) && NamesDistinct(s) && Idle(s, pid) && IsNext(s.db, id)
    ensures Inv(Next(s, Lease(pid, Some(id), acked)))
  {
    LeaseTable(s, pid, id, acked);
    LeaseCells(s, pid, id, acked);
    RowsOk(s, id);
    LeaseFences(s, pid, id, acked);
  }

  lemma WriteCell(s: Sys, pid: int, o: Outcome, j: int)
    requires CellsOk(s) && WorkersFenced(s) && Busy(s, pid) && j in s.db.jobs
    ensures j in StepWrite(s, pid, o).db.jobs
    ensures CellOk(CellOf(StepWrite(s, pid, o), j), s.db.now)
  {
    var w := s.workers[pid];
    var snap := w.job.value;
    var s' := StepWrite(s, pid, o);
    if Guard(s.db, snap.id, w.name) {
      assert Fenced(s, w);
      LogAppend(s.db.events, Event(snap.id, s.db.jobs[snap.id].traceId, OutcomeKind(snap.row, o)), j);
      if j == snap.id {
        CellOutcome(CellOf(s, j), CellOf(s', j), s.db.now, o);
      } else {
        assert CellOf(s', j) == CellOf(s, j);
      }
    }
  }

  lemma WriteTable(s: Sys, pid: int, o: Outcome)
    requires TableOk(s) && WorkersFenced(s) && Busy(s, pid)
    ensures TableOk(StepWrite(s, pid, o))
  {
  }

  lemma WriteFences(s: Sys, pid: int, o: Outcome)
    requires WorkersFenced(s) && Busy(s, pid)
    ensures WorkersFenced(StepWrite(s, pid, o))
  {
  }

  lemma WriteKeeps(s: Sys, pid: int, o: Outcome)
    requires Inv(s) && Enabled(s, Write(pid, o))
    ensures Inv(Next(s, Write(pid, o)))
  {
    var s' := StepWrite(s, pid, o);
    WriteTable(s, pid, o);
    assert CellsOk(s') by {
      forall j | j in s'.db.jobs ensures CellOk(CellOf(s', j), s'.db.now) {
        WriteCell(s, pid, o, j);
      }
    }
    WriteFences(s, pid, o);
  }

  lemma SweepCellOf(s: Sys, threshold: int, order: seq<int>, j: int)
    requires NoDup(order) && SeqSet(order) == ExpiredIds(s.db, threshold) && j in s.db.jobs
    ensures var c, c' := CellOf(s, j), CellOf(StepSweep(s, threshold, order), j);
            if j in ExpiredIds(s.db, threshold)
            then c' == Cell(Requeued(c.row, s.db.now), c.log + [EvExpire], c.leases,
                            c.endings + [Ending(c.leases, Some(EvExpire))])
            else c' == c
  {
    assert forall i | 0 <= i < |order| :: order[i] in SeqSet(order);
    LogSweep(s.db, s.db.events, order, j);
    assert j in order <==> j in SeqSet(order);
  }

  lemma SweepCell(s: Sys, threshold: int, order: seq<int>, j: int)
    requires CellsOk(s) && NoDup(order) && SeqSet(order) == ExpiredIds(s.db, threshold) && j in s.db.jobs
    ensures CellOk(CellOf(StepSweep(s, threshold, order), j), s.db.now)
  {
    SweepCellOf(s, threshold, order, j);
    assert CellOk(CellOf(s, j), s.db.now);
    if j in ExpiredIds(s.db, threshold) {
      CellExpire(CellOf(s, j), CellOf(StepSweep(s, threshold, order), j), s.db.now);
    }
  }

  lemma SweepTable(s: Sys, threshold: int, order: seq<int>)
    requires TableOk(s) && SeqSet(order) == ExpiredIds(s.db, threshold)
    ensures TableOk(StepSweep(s, threshold, order))
  {
  }

  lemma SweepKeeps(s: Sys, threshold: int, order: seq<int>)
    requires Inv(s) && NoDup(order) && SeqSet(order) == ExpiredIds(s.db, threshold)
    ensures Inv(Next(s, DoSweep(threshold, order)))
  {
    var s' := StepSweep(s, threshold, order);
    SweepTable(s, threshold, order);
    assert CellsOk(s') by {
      forall j | j in s'.db.jobs ensures CellOk(CellOf(s', j), s'.db.now) {
        SweepCell(s, threshold, order, j);
      }
    }
  }

  lemma ShutdownCell(s: Sys, pid: int, j: int)
    requires CellsOk(s) && pid in s.workers && j in s.db.jobs
    ensures CellOk(CellOf(StepShutdown(s, pid), j), s.db.now)
  {
    var c, c' := CellOf(s, j), CellOf(StepShutdown(s, pid), j);
    assert CellOk(c, s.db.now);
    if j in LeasedBy(s.db, s.workers[pid].name) {
      CellDrain(c, c', s.db.now);
    } else {
      assert c' == c;
    }
  }

  lemma ShutdownCells(s: Sys, pid: int)
    requires CellsOk(s) && pid in s.workers
    ensures CellsOk(StepShutdown(s, pid))
  {
    var s' := StepShutdown(s, pid);
    forall j | j in s'.db.jobs ensures CellOk(CellOf(s', j), s'.db.now) {
      ShutdownCell(s, pid, j);
    }
  }

  lemma ShutdownTable(s: Sys, pid: int)
    requires TableOk(s) && pid in s.workers
    ensures TableOk(StepShutdown(s, pid))
  {
  }

  lemma ShutdownFences(s: Sys, pid: int)
    requires WorkersFenced(s) && pid in s.workers
    ensures WorkersFenced(StepShutdown(s, pid))
  {
  }

  lemma ShutdownKeeps(s: Sys, pid: int)
    requires Inv(s) && Idle(s, pid)
    ensures Inv(Next(s, Shutdown(pid)))
  {
    ShutdownTable(s, pid);
    ShutdownCells(s, pid);
    ShutdownFences(s, pid);
  }

  lemma RetainKeeps(s: Sys, window: int)
    requires Inv(s)
    ensures Inv(Next(s, DoRetain(window)))
  {
    var ids := EligibleIds(s.db, window);
    var s' := s.(db := Retain(s.db, window));
    forall j | j in s'.db.jobs ensures CellOk(CellOf(s', j), s'.db.now) {
      LogWithout(s.db.events, ids, j);
      assert CellOf(s', j) == CellOf(s, j);
    }
    forall e | e in s'.db.events ensures e.jobId in s'.db.jobs && e.traceId == s'.db.jobs[e.jobId].traceId {
      WithoutMembers(s.db.events, ids, e);
    }
    forall p | p in s'.workers ensures Fenced(s', s'.workers[p]) {
      assert Fenced(s, s.workers[p]);
    }
  }

  lemma TickKeeps(s: Sys, dt: nat)
    requires Inv(s)
    ensures Inv(Next(s, Tick(dt)))
  {
    var s' := Next(s, Tick(dt));
    assert CellsOk(s') by {
      forall j | j in s'.db.jobs ensures CellOk(CellOf(s', j), s'.db.now) {
      }
    }
  }

  /** A change of the set of worker loops, or of the id sequence, leaves every job alone. */
  lemma WorkersKeep(s: Sys, s': Sys)
    requires Inv(s) && s'.leases == s.leases && s'.endings == s.endings
    requires s.db.nextId <= s'.db.nextId && s'.db == s.db.(nextId := s'.db.nextId)
    requires forall p | p in s'.workers :: s'.workers[p].job.None? || (p in s.workers && s'.workers[p] == s.workers[p])
    ensures Inv(s')
  {
  }

  lemma StepKeepsInv(s: Sys, l: Label)
    requires Inv(s) && NamesDistinct(s) && Enabled(s, l)
    ensures Inv(Next(s, l))
  {
    match l {
      case DoEnqueue(spec, maxAttempts) => EnqueueKeeps(s, spec, maxAttempts);
      case DoInsertBatch(specs) => BatchKeeps(s, specs);
      case DoSweep(threshold, order) => SweepKeeps(s, threshold, order);
      case DoRetain(window) => RetainKeeps(s, window);
      case Tick(dt) => TickKeeps(s, dt);
      case Lease(pid, id, acked) => if id.Some? { LeaseKeeps(s, pid, id.value, acked); }
      case Write(pid, o) => WriteKeeps(s, pid, o);
      case Shutdown(pid) => ShutdownKeeps(s, pid);
      case _ => WorkersKeep(s, Next(s, l));
    }
  }

  lemma {:induction false} RunKeepsInv(s: Sys, ls: seq<Label>)
    requires Inv(s) && Run(s, ls)
    ensures Inv(Exec(s, ls)) && NamesDistinct(Exec(s, ls))
    decreases |ls|
  {
    if |ls| == 0 {
    } else {
      StepKeepsInv(s, ls[0]);
      RunKeepsInv(Next(s, ls[0]), ls[1..]);
    }
  }
}
