/** A lease that expires costs no attempt. */
module ExpiredLease {
  import opened Common
  import opened JobTable
  import opened LeaseProtocol
  import opened LeaseTheorems

  const SPEC := JobSpec("t", "/a", "/b", "localfs", "localfs")
  const FIVE_MINUTES := 300_000_000

  lemma Then(s: Sys, l: Label, ls: seq<Label>)
    requires NamesDistinct(s) && Enabled(s, l) && Run(Next(s, l), ls)
    ensures Run(s, [l] + ls) && Exec(s, [l] + ls) == Exec(Next(s, l), ls)
  {
    assert ([l] + ls)[1..] == ls;
  }

  /** Job 1 is pending and has never been leased; one idle worker. */
  ghost predicate Untouched(s: Sys) {
    && s.db.jobs.Keys == {1} && Due(s.db, 1) && s.db.jobs[1].attempts == 0
    && LeasesOf(s, 1) == 0 && EndingsOf(s, 1) == [] && s.workers == map[1 := Worker("w0", None)]
  }

  lemma Enqueued(s: Sys)
    requires Init(s) && s.db.nextId == 1
    ensures Untouched(Next(Next(s, Start(1, "w0")), DoEnqueue(SPEC, 5)))
  {
    assert Next(Next(s, Start(1, "w0")), DoEnqueue(SPEC, 5)).db.jobs == map[1 := NewRow(SPEC, 5, s.db.now)];
  }

  ghost predicate ExpiredOnce(s: Sys) {
    && 1 in s.db.jobs && s.db.jobs[1].status == Pending && s.db.jobs[1].attempts == 0
    && LeasesOf(s, 1) == 1 && EndingsOf(s, 1) == [Ending(1, Some(EvExpire))]
  }

  ghost predicate LeasedOnce(s: Sys, at: int) {
    && s.db.jobs.Keys == {1} && s.db.jobs[1].status == Leased && s.db.jobs[1].lockedAt == Some(at)
    && s.db.jobs[1].attempts == 0 && LeasesOf(s, 1) == 1 && EndingsOf(s, 1) == [] && NamesDistinct(s)
  }

  lemma Taken(s: Sys)
    requires Untouched(s)
    ensures Enabled(s, Lease(1, Some(1), true)) && LeasedOnce(Next(s, Lease(1, Some(1), true)), s.db.now)
    ensures Next(s, Lease(1, Some(1), true)).db.now == s.db.now
  {
    assert IsNext(s.db, 1);
  }

  lemma Recovered(s: Sys, at: int)
    requires LeasedOnce(s, at) && at < s.db.now - FIVE_MINUTES
    ensures Enabled(s, DoSweep(FIVE_MINUTES, [1])) && ExpiredOnce(Next(s, DoSweep(FIVE_MINUTES, [1])))
    ensures NamesDistinct(Next(s, DoSweep(FIVE_MINUTES, [1])))
  {
    assert ExpiredIds(s.db, FIVE_MINUTES) == {1} == SeqSet([1]);
  }

  /** The job is leased, nothing is heard of it for longer than the threshold, and it is swept. */
  lemma LeasedAndSwept(s: Sys) returns (ls: seq<Label>)
    requires Untouched(s)
    ensures Run(s, ls) && ExpiredOnce(Exec(s, ls))
  {
    var take, wait, sweep := Lease(1, Some(1), true), Tick(FIVE_MINUTES + 1), DoSweep(FIVE_MINUTES, [1]);
    Taken(s);
    var s1 := Next(s, take);
    var s2 := Next(s1, wait);
    assert LeasedOnce(s2, s.db.now);
    Recovered(s2, s.db.now);
    Then(s2, sweep, []);
    Then(s1, wait, [sweep] + []);
    Then(s, take, [wait] + ([sweep] + []));
    ls := [take] + ([wait] + ([sweep] + []));
  }

  /** A run in which a job was leased once and has no attempt counted. */
  lemma ExpiryCostsNoAttempt(s0: Sys) returns (ls: seq<Label>)
    requires Init(s0) && s0.db.nextId == 1
    ensures Run(s0, ls) && 1 in Exec(s0, ls).db.jobs
    ensures var s := Exec(s0, ls);
            LeasesOf(s, 1) == 1 && s.db.jobs[1].attempts == 0 && Expiries(EndingsOf(s, 1)) == 1
  {
    var s1 := Next(s0, Start(1, "w0"));
    Enqueued(s0);
    ls := LeasedAndSwept(Next(s1, DoEnqueue(SPEC, 5)));
    Then(s1, DoEnqueue(SPEC, 5), ls);
    Then(s0, Start(1, "w0"), [DoEnqueue(SPEC, 5)] + ls);
    ls := [Start(1, "w0")] + ([DoEnqueue(SPEC, 5)] + ls);
  }
}
