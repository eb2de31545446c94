/** A budget of 33 attempts is the largest for which a waiting job is never overtaken by a retry. */
module Overtaken {
  import opened Common
  import opened Durations
  import opened JobTable
  import opened LeaseProtocol
  import opened LeaseInvariant
  import opened Overtaking

  /** The step puts one more job ahead of the due job. */
  ghost predicate Overtakes(s: Sys, l: Label, id: int) {
    && Enabled(s, l) && Due(s.db, id) && id in Next(s, l).db.jobs
    && |Ahead(Next(s, l).db, id)| > |Ahead(s.db, id)|
  }

  /** A calm run within the budget that ends with such a step. */
  ghost predicate OvertakingRun(budget: int, s0: Sys, ls: seq<Label>, l: Label, id: int) {
    && Init(s0) && CalmRun(s0, ls, budget) && Calm(Exec(s0, ls), l, budget) && !Takes(l, id)
    && Overtakes(Exec(s0, ls), l, id)
  }

  ghost predicate OvertakingFree(budget: int) {
    forall s0, ls, l, id :: !OvertakingRun(budget, s0, ls, l, id)
  }

  lemma {:induction false} RunKeepsModest(s: Sys, ls: seq<Label>, budget: int)
    requires Modest(s) && CalmRun(s, ls, budget) && budget <= MODEST_BUDGET
    ensures Modest(Exec(s, ls))
    decreases |ls|
  {
    if |ls| == 0 {
    } else {
      StepKeepsModest(s, ls[0]);
      RunKeepsModest(Next(s, ls[0]), ls[1..], budget);
    }
  }

  // ---- a run in which a job fails thirty-two times ----------------------------------------------

  const LONG := 34
  const FIRST := JobSpec("t-1", "/a", "/b", "localfs", "localfs")
  const SECOND := JobSpec("t-2", "/a", "/c", "localfs", "localfs")

  lemma Then(s: Sys, l: Label, ls: seq<Label>)
    requires NamesDistinct(s) && Enabled(s, l) && Calm(s, l, LONG) && CalmRun(Next(s, l), ls, LONG)
    ensures CalmRun(s, [l] + ls, LONG) && Exec(s, [l] + ls) == Exec(Next(s, l), ls)
  {
    assert ([l] + ls)[1..] == ls;
  }

  lemma {:induction false} RunAppend(s: Sys, a: seq<Label>, b: seq<Label>)
    requires CalmRun(s, a, LONG) && CalmRun(Exec(s, a), b, LONG)
    ensures CalmRun(s, a + b, LONG) && Exec(s, a + b) == Exec(Exec(s, a), b)
    decreases |a|
  {
    if |a| == 0 {
      assert a + b == b;
    } else {
      RunAppend(Next(s, a[0]), a[1..], b);
      assert a + b == [a[0]] + (a[1..] + b);
      Then(s, a[0], a[1..] + b);
    }
  }

  /** One job that failed n times and is due, one idle worker. */
  ghost predicate Failing(s: Sys, n: nat) {
    && s.db.jobs.Keys == {1} && s.db.nextId == 2 && s.workers == map[1 := Worker("w0", None)]
    && var row := s.db.jobs[1];
       row.status == Pending && row.nextRunAt <= s.db.now && row.attempts == n && row.maxAttempts == LONG
       && row.traceId == FIRST.traceId && row.dst == FIRST.dst
  }

  lemma Started(now: int) returns (s0: Sys, ls: seq<Label>)
    ensures Init(s0) && CalmRun(s0, ls, LONG) && Failing(Exec(s0, ls), 0)
  {
    s0 := Sys(Db(map[], [], 1, now), map[], map[], map[]);
    var s1 := Next(s0, Start(1, "w0"));
    var s2 := Next(s1, DoEnqueue(FIRST, LONG));
    assert s2.db.jobs == map[1 := NewRow(FIRST, LONG, now)];
    Then(s1, DoEnqueue(FIRST, LONG), []);
    Then(s0, Start(1, "w0"), [DoEnqueue(FIRST, LONG)] + []);
    ls := [Start(1, "w0")] + ([DoEnqueue(FIRST, LONG)] + []);
  }

  ghost predicate AtWork(s: Sys, row: Row) {
    && s.workers.Keys == {1} && s.workers[1].name == "w0" && s.workers[1].job.Some?
    && s.workers[1].job.value.id == 1 && s.workers[1].job.value.row == row
    && 1 in s.db.jobs && s.db.jobs[1] == row && row.status == Leased && row.lockedBy == Some("w0")
  }

  lemma LeaseFirst(s: Sys) returns (s': Sys)
    requires s.workers == map[1 := Worker("w0", None)] && IsNext(s.db, 1)
    ensures Enabled(s, Lease(1, Some(1), true)) && Calm(s, Lease(1, Some(1), true), LONG)
    ensures s' == Next(s, Lease(1, Some(1), true)) && s'.db == TakeLease(s.db, 1, "w0")
    ensures AtWork(s', s'.db.jobs[1]) && s'.db.jobs[1].attempts == s.db.jobs[1].attempts
  {
    s' := Next(s, Lease(1, Some(1), true));
  }

  lemma RetryFirst(s: Sys, n: nat, d: int) returns (s': Sys)
    requires s.db.jobs.Keys == {1} && AtWork(s, s.db.jobs[1]) && DelayDrawn(n + 1, d)
    requires s.db.jobs[1].attempts == n && s.db.jobs[1].maxAttempts == LONG && n + 1 < LONG
    ensures Enabled(s, Write(1, Retry(d))) && s' == Next(s, Write(1, Retry(d)))
    ensures s'.workers == s.workers && s'.db.nextId == s.db.nextId && s'.db.now == s.db.now
    ensures s'.db.jobs == map[1 := s.db.jobs[1].(status := Pending, attempts := n + 1, nextRunAt := s.db.now + d * 1000,
                                                 lockedAt := None, lockedBy := None, updatedAt := s.db.now)]
  {
    s' := Next(s, Write(1, Retry(d)));
  }

  /** The wait until the job is due again. */
  lemma WaitDue(s: Sys, n: nat, d: nat) returns (ls: seq<Label>)
    requires s.workers.Keys == {1} && s.workers[1].name == "w0" && s.workers[1].job.Some? && s.db.nextId == 2
    requires s.db.jobs.Keys == {1} && s.db.jobs[1].status == Pending && s.db.jobs[1].attempts == n
    requires s.db.jobs[1].maxAttempts == LONG && s.db.jobs[1].nextRunAt == s.db.now + d * 1000
    requires s.db.jobs[1].traceId == FIRST.traceId && s.db.jobs[1].dst == FIRST.dst
    ensures CalmRun(s, ls, LONG) && Failing(Exec(s, ls), n)
  {
    var finished := Next(s, Finish(1));
    assert finished.workers == map[1 := Worker("w0", None)];
    Then(finished, Tick(d * 1000), []);
    Then(s, Finish(1), [Tick(d * 1000)] + []);
    ls := [Finish(1)] + ([Tick(d * 1000)] + []);
  }

  /** A lease, a failure that is to be retried, and that wait. */
  lemma FailOnce(s: Sys, n: nat) returns (ls: seq<Label>)
    requires Failing(s, n) && n + 1 <= 32
    ensures CalmRun(s, ls, LONG) && Failing(Exec(s, ls), n + 1)
  {
    var d := RetryMillis(n + 1, 0.5, 0);
    RetryMillisBounds(n + 1, 0.5, 0);
    assert DelayDrawn(n + 1, d);
    assert IsNext(s.db, 1);
    var leased := LeaseFirst(s);
    var written := RetryFirst(leased, n, d);
    var wait := WaitDue(written, n + 1, d);
    Then(leased, Write(1, Retry(d)), wait);
    Then(s, Lease(1, Some(1), true), [Write(1, Retry(d))] + wait);
    ls := [Lease(1, Some(1), true)] + ([Write(1, Retry(d))] + wait);
  }

  lemma {:induction false} FailTo(s: Sys, n: nat) returns (ls: seq<Label>)
    requires Failing(s, n) && n <= 32
    ensures CalmRun(s, ls, LONG) && Failing(Exec(s, ls), 32)
    decreases 32 - n
  {
    if n == 32 {
      ls := [];
    } else {
      var once := FailOnce(s, n);
      var rest := FailTo(Exec(s, once), n + 1);
      RunAppend(s, once, rest);
      ls := once + rest;
    }
  }

  /** A second job is enqueued, and the first one is leased once more. */
  lemma SecondWaits(s: Sys) returns (ls: seq<Label>)
    requires Failing(s, 32)
    ensures CalmRun(s, ls, LONG)
    ensures var t := Exec(s, ls);
            && t.db.jobs.Keys == {1, 2} && AtWork(t, t.db.jobs[1]) && t.db.jobs[1].attempts == 32
            && t.db.jobs[1].maxAttempts == LONG && Due(t.db, 2) && t.db.jobs[2].nextRunAt == t.db.now
  {
    var joined := Next(s, DoEnqueue(SECOND, 5));
    assert joined.db.jobs == s.db.jobs[2 := NewRow(SECOND, 5, s.db.now)];
    assert IsNext(joined.db, 1);
    var leased := LeaseFirst(joined);
    Then(joined, Lease(1, Some(1), true), []);
    Then(s, DoEnqueue(SECOND, 5), [Lease(1, Some(1), true)] + []);
    ls := [DoEnqueue(SECOND, 5)] + ([Lease(1, Some(1), true)] + []);
  }

  /** The retry the amd64 conversion makes of the thirty-third delay. */
  lemma Jumps(s: Sys) returns (o: Outcome)
    requires s.db.jobs.Keys == {1, 2} && AtWork(s, s.db.jobs[1]) && s.db.jobs[1].attempts == 32
    requires s.db.jobs[1].maxAttempts == LONG && Due(s.db, 2) && s.db.jobs[2].nextRunAt == s.db.now
    requires WorkersFenced(s)
    ensures o == Retry(RetryMillis(33, 0.9, -TWO63)) && Overtakes(s, Write(1, o), 2)
  {
    var d := RetryMillis(33, 0.9, -TWO63);
    DelayOverflows(33, 0.9, -TWO63);
    assert d == -9223372036854;
    o := Retry(d);
    assert Enabled(s, Write(1, o));
    RetryRank(s, 1, d, 2);
    assert GoesAhead(s.db, 1, d, 2);
  }

  /** A run from the empty table, within a budget of 34, whose last step is such a retry. */
  lemma LongBudgetOvertakes(now: int) returns (s0: Sys, ls: seq<Label>, o: Outcome)
    ensures Init(s0) && CalmRun(s0, ls, LONG) && Overtakes(Exec(s0, ls), Write(1, o), 2)
    ensures o == Retry(RetryMillis(33, 0.9, -TWO63))
  {
    var start, fails, waits;
    s0, start := Started(now);
    fails := FailTo(Exec(s0, start), 0);
    RunAppend(s0, start, fails);
    waits := SecondWaits(Exec(s0, start + fails));
    RunAppend(s0, start + fails, waits);
    ls := start + fails + waits;
    RunKeepsInv(s0, ls);
    o := Jumps(Exec(s0, ls));
  }

  lemma {:induction false} LargerBudget(s: Sys, ls: seq<Label>, budget: int)
    requires CalmRun(s, ls, LONG) && budget >= LONG
    ensures CalmRun(s, ls, budget)
    decreases |ls|
  {
    if |ls| == 0 {
    } else {
      LargerBudget(Next(s, ls[0]), ls[1..], budget);
    }
  }

  /** A due job is never overtaken, in any run without expiries and drains, if and only if no budget exceeds
      33 attempts. */
  lemma OvertakingFreeIff(budget: int)
    ensures OvertakingFree(budget) <==> budget <= MODEST_BUDGET
  {
    if budget <= MODEST_BUDGET {
      forall s0, ls, l, id ensures !OvertakingRun(budget, s0, ls, l, id) {
        if OvertakingRun(budget, s0, ls, l, id) {
          RunKeepsInv(s0, ls);
          RunKeepsModest(s0, ls, budget);
          StepRank(Exec(s0, ls), l, id);
        }
      }
    } else {
      var s0, ls, o := LongBudgetOvertakes(0);
      LargerBudget(s0, ls, budget);
      assert OvertakingRun(budget, s0, ls, Write(1, o), 2);
    }
  }
}
