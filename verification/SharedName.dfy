/** Distinct worker names are needed: with two loops under one name the fence does not hold. */
module SharedName {
  import opened Common
  import opened JobTable
  import opened LeaseProtocol

  ghost predicate Step(s: Sys, s': Sys) {
    exists l :: Enabled(s, l) && s' == Next(s, l)
  }

  /** The states visited by a run in which names may coincide. */
  ghost predicate Trace(ss: seq<Sys>) {
    forall i | 0 <= i < |ss| - 1 :: Step(ss[i], ss[i + 1])
  }

  lemma Extend(ss: seq<Sys>, s: Sys)
    requires |ss| > 0 && Trace(ss) && Step(ss[|ss| - 1], s)
    ensures Trace(ss + [s]) && (ss + [s])[0] == ss[0]
  {
  }

  const SPEC := JobSpec("t", "/a", "/b", "localfs", "localfs")
  const POD := "imgsync-worker-w0"
  const FIVE_MINUTES := 300_000_000

  /** One pending, due job that was leased `n` times. */
  ghost predicate OnePending(s: Sys, n: nat) {
    && s.db.jobs.Keys == {1} && s.db.jobs[1].status == Pending && s.db.jobs[1].nextRunAt <= s.db.now
    && LeasesOf(s, 1) == n
  }

  lemma Create(s: Sys) returns (s': Sys)
    requires Init(s) && s.db.nextId == 1
    ensures Step(s, s') && OnePending(s', 0) && s'.workers == map[]
  {
    s' := Next(s, DoEnqueue(SPEC, 5));
    assert s'.db.jobs == map[1 := NewRow(SPEC, 5, s.db.now)];
  }

  lemma Launch(s: Sys, pid: int) returns (s': Sys)
    requires pid !in s.workers
    ensures Step(s, s') && s' == s.(workers := s.workers[pid := Worker(POD, None)])
  {
    assert Enabled(s, Start(pid, POD));
    s' := Next(s, Start(pid, POD));
  }

  lemma TakeOver(s: Sys, pid: int, n: nat) returns (s': Sys)
    requires OnePending(s, n) && pid in s.workers && s.workers[pid] == Worker(POD, None)
    ensures Step(s, s') && LeasesOf(s', 1) == n + 1
    ensures s'.db.jobs.Keys == {1} && s'.db.jobs[1].status == Leased && s'.db.jobs[1].lockedBy == Some(POD)
    ensures s'.db.jobs[1].lockedAt == Some(s'.db.now) && s'.db.jobs[1].nextRunAt <= s'.db.now
    ensures s'.workers == s.workers[pid := Worker(POD, Some(Snapshot(1, s'.db.jobs[1], n + 1)))]
  {
    assert IsNext(s.db, 1);
    assert Enabled(s, Lease(pid, Some(1), true));
    s' := Next(s, Lease(pid, Some(1), true));
  }

  lemma Wait(s: Sys, dt: nat) returns (s': Sys)
    ensures Step(s, s') && s' == s.(db := s.db.(now := s.db.now + dt))
  {
    assert Enabled(s, Tick(dt));
    s' := Next(s, Tick(dt));
  }

  lemma Recover(s: Sys) returns (s': Sys)
    requires s.db.jobs.Keys == {1} && s.db.jobs[1].status == Leased && s.db.jobs[1].lockedAt.Some?
    requires s.db.jobs[1].lockedAt.value < s.db.now - FIVE_MINUTES && s.db.jobs[1].nextRunAt <= s.db.now
    ensures Step(s, s') && OnePending(s', LeasesOf(s, 1)) && s'.workers == s.workers
  {
    assert ExpiredIds(s.db, FIVE_MINUTES) == {1} == SeqSet([1]);
    assert Enabled(s, DoSweep(FIVE_MINUTES, [1]));
    s' := Next(s, DoSweep(FIVE_MINUTES, [1]));
  }

  /** Two loops named alike: the first one's lease expires, the second takes the job over, and
      then the first one's outcome is accepted for a lease it does not hold. */
  lemma SharedNameBreaksFence(s0: Sys) returns (ss: seq<Sys>)
    requires Init(s0) && s0.db.nextId == 1
    ensures |ss| > 0 && ss[0] == s0 && Trace(ss)
    ensures var s := ss[|ss| - 1];
            && Busy(s, 1) && s.workers[1].job.value.serial == 1 && s.workers[1].job.value.id == 1
            && Guard(s.db, 1, s.workers[1].name) && LeasesOf(s, 1) == 2
            && Enabled(s, Write(1, Success)) && Next(s, Write(1, Success)).db != s.db
  {
    ss := [s0];
    var s := Create(s0);
    Extend(ss, s); ss := ss + [s];
    s := Launch(s, 1);
    Extend(ss, s); ss := ss + [s];
    s := Launch(s, 2);
    Extend(ss, s); ss := ss + [s];
    s := TakeOver(s, 1, 0);
    Extend(ss, s); ss := ss + [s];
    s := Wait(s, FIVE_MINUTES + 1);
    Extend(ss, s); ss := ss + [s];
    s := Recover(s);
    Extend(ss, s); ss := ss + [s];
    s := TakeOver(s, 2, 1);
    Extend(ss, s); ss := ss + [s];
    assert Next(s, Write(1, Success)).db.jobs[1].status == Succeeded;
  }
}
