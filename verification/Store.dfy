/**
 * The queue as a mutable store. Every method is one call of the Go code: a single statement or a
 * transaction. Each is proved against the function of the same purpose in JobTable; the lease
 * protocol is about those functions. A transaction that fails is rolled back.
 */
module Store {
  import opened Common
  import opened JobTable
  import Durations

  datatype EnqueueResult = Rejected | Inserted(id: int) | Existing(id: int)

  /** The error classes outcome writing distinguishes. */
  datatype JobError = Skippable | PermanentErr | Retryable

  function OutcomeOf(e: JobError, delayMs: int): Outcome {
    match e
    case Skippable => SkipJob
    case PermanentErr => Permanent
    case Retryable => Retry(delayMs)
  }

  /** The row and the event an error leaves under the guard. */
  predicate ErrorRecorded(row: Row, snapshot: Row, e: JobError, delayMs: int, now: int, row': Row, kind: EventKind) {
    && row'.lockedAt == None && row'.lockedBy == None && row'.updatedAt == now
    && match e
       case Skippable => row'.status == Skipped && row'.attempts == snapshot.attempts && kind == EvSkip
                         && row'.nextRunAt == row.nextRunAt
       case PermanentErr => row'.status == Dead && row'.attempts == snapshot.attempts + 1 && kind == EvDead
                            && row'.nextRunAt == row.nextRunAt
       case Retryable =>
         && row'.attempts == snapshot.attempts + 1
         && if snapshot.attempts + 1 < snapshot.maxAttempts
            then row'.status == Pending && row'.nextRunAt == now + delayMs * 1000 && kind == EvFail
            else row'.status == Dead && row'.nextRunAt == row.nextRunAt && kind == EvDead
  }

  /** The result label of a failed job; a retry that found its lease lost has none. */
  function LabelOf(e: JobError, snapshot: Row, guarded: bool): string {
    match e
    case Skippable => "skipped"
    case PermanentErr => "dead"
    case Retryable => if Exhausted(snapshot) then "dead" else if guarded then "fail" else ""
  }

  /** The row of a job nobody has touched yet, with all its arguments in their columns. */
  predicate IsNewJob(row: Row, spec: JobSpec, budget: int, now: int) {
    && row.traceId == spec.traceId && row.src == spec.src && row.dst == spec.dst
    && row.srcProtocol == spec.srcProtocol && row.dstProtocol == spec.dstProtocol
    && row.status == Pending && row.attempts == 0 && row.maxAttempts == budget
    && row.lockedAt == None && row.lockedBy == None
    && row.nextRunAt == now && row.createdAt == now && row.updatedAt == now
  }

  class JobStore {
    var jobs: map<int, Row>
    var events: seq<Event>
    var nextId: int
    var now: int

    constructor (now: int)
      ensures Value() == Db(map[], [], 1, now)
    {
      this.jobs, this.events, this.nextId, this.now := map[], [], 1, now;
    }

    function Value(): Db
      reads this
    {
      Db(jobs, events, nextId, now)
    }

    method Enqueue(spec: JobSpec, maxAttempts: int) returns (r: EnqueueResult)
      modifies this`jobs, this`events, this`nextId
      ensures Value() == JobTable.Enqueue(old(Value()), spec, maxAttempts)
      ensures r.Rejected? <==> !Accepted(spec, maxAttempts)
      ensures r.Inserted? <==> Accepted(spec, maxAttempts) && !KeyTaken(old(Value()), spec.traceId, spec.dst)
      ensures !r.Rejected? ==> r.id in jobs && jobs[r.id].traceId == spec.traceId && jobs[r.id].dst == spec.dst
      ensures r.Existing? ==> r.id in old(jobs)
      ensures r.Rejected? <==>
              || spec.traceId == "" || spec.src == "" || spec.dst == ""
              || spec.srcProtocol == "" || spec.dstProtocol == ""
              || maxAttempts > 2_147_483_647
      ensures r.Inserted? ==>
                IsNewJob(jobs[r.id], spec, if maxAttempts <= 0 then 5 else maxAttempts, now)
    {
      if spec.traceId == "" || spec.src == "" || spec.dst == "" {
        return Rejected;
      }
      if spec.srcProtocol == "" || spec.dstProtocol == "" {
        return Rejected;
      }
      var budget := maxAttempts;
      if budget <= 0 {
        budget := DEFAULT_MAX_ATTEMPTS;
      }
      if budget > INT_MAX {
        return Rejected;
      }
      var id := nextId;
      nextId := nextId + 1;
      if j :| j in jobs && jobs[j].traceId == spec.traceId && jobs[j].dst == spec.dst {
        return Existing(j);
      }
      jobs := jobs[id := NewRow(spec, budget, now)];
      events := events + [Event(id, spec.traceId, EvEnqueue)];
      return Inserted(id);
    }

    method LeaseJob(name: string) returns (job: Option<(int, Row)>)
      modifies this`jobs
      ensures job.None? ==> Value() == old(Value()) && forall id | id in jobs :: !Due(Value(), id)
      ensures job.Some? ==>
                var id := job.value.0;
                && IsNext(old(Value()), id)
                && Value() == TakeLease(old(Value()), id, name)
                && job.value.1 == jobs[id]
    {
      var due := set id | id in jobs && Due(Value(), id);
      if due == {} {
        assert forall id | id in jobs && Due(Value(), id) :: id in due;
        return None;
      }
      FirstExists(Value(), due);
      var id :| id in due && forall j | j in due && j != id :: Before(Value(), id, j);
      assert forall j | j in jobs && Due(Value(), j) :: j in due;
      jobs := jobs[id := jobs[id].(status := Leased, lockedAt := Some(now), lockedBy := Some(name), updatedAt := now)];
      return Some((id, jobs[id]));
    }

    /** The guarded UPDATE with its event; reports whether a row matched. */
    method WriteTerminalWithAttempts(id: int, name: string, status: Status, kind: EventKind, attempts: int)
      returns (matched: bool)
      modifies this`jobs, this`events
      ensures matched == Guard(old(Value()), id, name)
      ensures Value() == if !matched then old(Value()) else
                old(Value()).(jobs := old(jobs)[id := old(jobs)[id].(status := status, attempts := attempts,
                                lockedAt := None, lockedBy := None, updatedAt := now)],
                              events := old(events) + [Event(id, old(jobs)[id].traceId, kind)])
    {
      matched := Guard(Value(), id, name);
      if matched {
        var row := jobs[id];
        jobs := jobs[id := row.(status := status, attempts := attempts, lockedAt := None, lockedBy := None,
                                updatedAt := now)];
        events := events + [Event(id, row.traceId, kind)];
      }
    }

    method WriteSuccess(id: int, name: string, snapshot: Row)
      modifies this`jobs, this`events
      ensures Value() == WriteOutcome(old(Value()), id, name, snapshot, Success)
    {
      if Guard(Value(), id, name) {
        var row := jobs[id];
        jobs := jobs[id := row.(status := Succeeded, lockedAt := None, lockedBy := None, updatedAt := now)];
        events := events + [Event(id, row.traceId, EvSuccess)];
      }
    }

    /** The result label of the write: "dead", "fail", or "" when a retry found its lease lost. */
    method WriteRetryOrDead(id: int, name: string, snapshot: Row, delayMs: int) returns (result: string)
      modifies this`jobs, this`events
      ensures Value() == WriteOutcome(old(Value()), id, name, snapshot, Retry(delayMs))
      ensures result == if Exhausted(snapshot) then "dead" else if Guard(old(Value()), id, name) then "fail" else ""
    {
      var nextAttempts := snapshot.attempts + 1;
      if nextAttempts >= snapshot.maxAttempts {
        var _ := WriteTerminalWithAttempts(id, name, Dead, EvDead, nextAttempts);
        return "dead";
      }
      if !Guard(Value(), id, name) {
        return "";
      }
      var row := jobs[id];
      jobs := jobs[id := row.(status := Pending, attempts := nextAttempts, nextRunAt := now + delayMs * 1000,
                              lockedAt := None, lockedBy := None, updatedAt := now)];
      events := events + [Event(id, row.traceId, EvFail)];
      return "fail";
    }

    method ClassifyAndWrite(id: int, name: string, snapshot: Row, e: JobError, delayMs: int) returns (result: string)
      modifies this`jobs, this`events
      ensures Value() == WriteOutcome(old(Value()), id, name, snapshot, OutcomeOf(e, delayMs))
      ensures result == LabelOf(e, snapshot, Guard(old(Value()), id, name))
      ensures Guard(old(Value()), id, name) ==>
                && id in jobs && |events| == |old(events)| + 1
                && ErrorRecorded(old(jobs)[id], snapshot, e, delayMs, now, jobs[id], events[|old(events)|].kind)
                && (result == "skipped" <==> jobs[id].status == Skipped)
                && (result == "dead" <==> jobs[id].status == Dead)
                && (result == "fail" <==> jobs[id].status == Pending)
      ensures !Guard(old(Value()), id, name) && e.Retryable? && snapshot.attempts + 1 < snapshot.maxAttempts ==>
                result == ""
    {
      match e {
        case Skippable =>
          var _ := WriteTerminalWithAttempts(id, name, Skipped, EvSkip, snapshot.attempts);
          result := "skipped";
        case PermanentErr =>
          var _ := WriteTerminalWithAttempts(id, name, Dead, EvDead, snapshot.attempts + 1);
          result := "dead";
        case Retryable =>
          result := WriteRetryOrDead(id, name, snapshot, delayMs);
      }
    }

    method DrainLease(name: string)
      modifies this`jobs
      ensures Value() == Drain(old(Value()), name)
    {
      jobs := map id | id in jobs ::
        if Guard(Value(), id, name)
        then jobs[id].(status := Pending, lockedAt := None, lockedBy := None, updatedAt := now)
        else jobs[id];
    }

    /** One sweep; `locked` is the answer of the advisory lock, `committed` the fate of the transaction. */
    method Sweep(threshold: int, locked: bool, committed: bool) returns (n: Option<nat>, ghost order: seq<int>)
      modifies this`jobs, this`events
      ensures !locked ==> n == Some(0) && Value() == old(Value())
      ensures locked && !committed ==> n == None && Value() == old(Value())
      ensures locked && committed ==>
                var micros := Durations.SweepMicros(threshold);
                && NoDup(order) && SeqSet(order) == ExpiredIds(old(Value()), micros)
                && Value() == JobTable.Sweep(old(Value()), micros, order)
                && n == Some(|ExpiredIds(old(Value()), micros)|)
    {
      order := [];
      if !locked {
        return Some(0), order;
      }
      if !committed {
        return None, order;
      }
      var micros := Durations.SweepMicros(threshold);
      ghost var was := Value();
      var ids := ExpiredIds(Value(), micros);
      var recovered;
      recovered, order := Collect(jobs, ids);
      jobs := RequeueAll(Value(), ids);
      InsertExpireEvents(recovered, was, order);
      NoDupCardinality(order);
      return Some(|recovered|), order;
    }

    /** The retention transaction: delete in batches until a short batch. `rounds` counts the DELETEs. */
    method RetentionSweep(window: int, batchSize: int, locked: bool, committed: bool)
      returns (deleted: Option<nat>, ghost rounds: nat)
      modifies this`jobs, this`events
      ensures window <= 0 || !locked ==> deleted == Some(0) && Value() == old(Value())
      ensures window > 0 && locked && !committed ==> deleted == None && Value() == old(Value())
      ensures window > 0 && locked && committed ==>
                var micros := Durations.RetentionMicros(window);
                var n := |EligibleIds(old(Value()), micros)|;
                && Value() == Retain(old(Value()), micros)
                && deleted == Some(n)
                && rounds == n / (if batchSize <= 0 then 1000 else batchSize) + 1
    {
      rounds := 0;
      if window <= 0 || !locked {
        return Some(0), rounds;
      }
      if !committed {
        return None, rounds;
      }
      var size := BatchOrDefault(batchSize);
      var micros := Durations.RetentionMicros(window);
      var total;
      total, rounds := DeleteUntilShort(micros, size);
      return Some(total), rounds;
    }

    method DeleteUntilShort(micros: int, size: int) returns (total: nat, ghost rounds: nat)
      requires size > 0
      modifies this`jobs, this`events
      ensures Value() == Retain(old(Value()), micros)
      ensures total == |EligibleIds(old(Value()), micros)| && rounds == total / size + 1
    {
      ghost var was := Value();
      ghost var gone: set<int> := {};
      ghost var last;
      total, rounds := 0, 0;
      DeleteNone(was);
      while true
        invariant Value() == DeleteJobs(was, gone) && gone <= EligibleIds(was, micros)
        invariant total == |gone| && total == rounds * size
        decreases |EligibleIds(was, micros)| - |gone|
      {
        EligibleAfter(was, gone, micros);
        var batch := DeleteBatch(micros, size);
        DeleteTwice(was, gone, batch);
        assert |gone + batch| == |gone| + |batch|;
        SubsetCardinality(gone + batch, EligibleIds(was, micros));
        gone, total, last := gone + batch, total + |batch|, |batch|;
        NextMultiple(rounds, size);
        rounds := rounds + 1;
        if |batch| < size {
          assert gone == EligibleIds(was, micros);
          break;
        }
      }
      RoundsNeeded(total, rounds, size, last);
    }

    /** One DELETE: up to `size` eligible rows, their events with them. */
    method DeleteBatch(micros: int, size: nat) returns (batch: set<int>)
      modifies this`jobs, this`events
      ensures Value() == DeleteJobs(old(Value()), batch)
      ensures batch <= EligibleIds(old(Value()), micros)
      ensures |batch| == Min(|EligibleIds(old(Value()), micros)|, size)
      ensures |batch| < size ==> batch == EligibleIds(old(Value()), micros)
    {
      batch := PickBatch(EligibleIds(Value(), micros), size);
      jobs := jobs - batch;
      events := WithoutJobs(events, batch);
    }

    /** One 'expire' event for each recovered row. */
    method InsertExpireEvents(recovered: seq<(int, string)>, ghost was: Db, ghost order: seq<int>)
      requires |recovered| == |order|
      requires forall i | 0 <= i < |order| ::
                 order[i] in was.jobs && recovered[i] == (order[i], was.jobs[order[i]].traceId)
      modifies this`events
      ensures events == old(events) + ExpireEvents(was, order)
    {
      for i := 0 to |recovered|
        invariant events == old(events) + ExpireEvents(was, order[..i])
      {
        var e := Event(recovered[i].0, recovered[i].1, EvExpire);
        events := events + [e];
        assert ExpireEvents(was, order[..i + 1]) == ExpireEvents(was, order[..i]) + [e];
      }
      assert order[..|order|] == order;
    }
  }

  /** Collects the rows an UPDATE ... RETURNING id, trace_id hands back, in whatever order. */
  method Collect(rows: map<int, Row>, ids: set<int>) returns (recovered: seq<(int, string)>, ghost order: seq<int>)
    requires ids <= rows.Keys
    ensures |recovered| == |ids| && forall id | id in ids :: (id, rows[id].traceId) in recovered
    ensures NoDup(order) && SeqSet(order) == ids && |recovered| == |order|
    ensures forall i | 0 <= i < |order| :: order[i] in rows && recovered[i] == (order[i], rows[order[i]].traceId)
  {
    recovered, order := [], [];
    var pending := ids;
    while pending != {}
      invariant pending <= ids && |recovered| == |order|
      invariant NoDup(order) && SeqSet(order) == ids - pending
      invariant forall i | 0 <= i < |order| :: order[i] in rows && recovered[i] == (order[i], rows[order[i]].traceId)
      decreases |pending|
    {
      Inhabited(pending);
      var id :| id in pending;
      SeqSetAppend(order, id);
      order := order + [id];
      recovered := recovered + [(id, rows[id].traceId)];
      pending := pending - {id};
    }
    CollectedAll(rows, ids, recovered, order);
  }

  lemma CollectedAll(rows: map<int, Row>, ids: set<int>, recovered: seq<(int, string)>, order: seq<int>)
    requires NoDup(order) && SeqSet(order) == ids && |recovered| == |order|
    requires forall i | 0 <= i < |order| :: order[i] in rows && recovered[i] == (order[i], rows[order[i]].traceId)
    ensures |recovered| == |ids| && forall id | id in ids :: id in rows && (id, rows[id].traceId) in recovered
  {
    NoDupCardinality(order);
    forall id | id in ids ensures id in rows && (id, rows[id].traceId) in recovered {
      var i :| 0 <= i < |order| && order[i] == id;
      assert recovered[i] == (id, rows[id].traceId);
    }
  }

  function BatchOrDefault(batchSize: int): (n: int)
    ensures n > 0
  {
    if batchSize <= 0 then 1000 else batchSize
  }

  /** SELECT id ... LIMIT n: any n of the ids, or all of them when there are fewer. */
  method PickBatch(ids: set<int>, n: nat) returns (batch: set<int>)
    ensures batch <= ids && |batch| == Min(|ids|, n)
    ensures |batch| < n ==> batch == ids
  {
    batch := {};
    var rest := ids;
    while |batch| < n && rest != {}
      invariant batch + rest == ids && batch * rest == {} && |batch| <= n && |ids| == |batch| + |rest|
      decreases |rest|
    {
      Inhabited(rest);
      var id :| id in rest;
      batch, rest := batch + {id}, rest - {id};
    }
  }

  lemma NextMultiple(k: int, size: int)
    ensures (k + 1) * size == k * size + size
  {
  }

  lemma RoundsNeeded(total: nat, rounds: nat, size: int, last: nat)
    requires size > 0 && rounds > 0 && last < size && total == (rounds - 1) * size + last
    ensures rounds == total / size + 1
  {
    DivUnique(total, size, rounds - 1, last);
  }

  lemma DeleteNone(db: Db)
    ensures DeleteJobs(db, {}) == db
  {
    WithoutNone(db.events);
  }

  lemma DeleteTwice(db: Db, a: set<int>, b: set<int>)
    ensures DeleteJobs(DeleteJobs(db, a), b) == DeleteJobs(db, a + b)
  {
    WithoutTwice(db.events, a, b);
    assert db.jobs - a - b == db.jobs - (a + b);
  }

  lemma EligibleAfter(db: Db, gone: set<int>, micros: int)
    ensures EligibleIds(DeleteJobs(db, gone), micros) == EligibleIds(db, micros) - gone
  {
  }

  lemma {:induction false} WithoutNone(es: seq<Event>)
    ensures WithoutJobs(es, {}) == es
  {
    if |es| == 0 {
    } else {
      WithoutNone(es[..|es| - 1]);
      assert es == es[..|es| - 1] + [es[|es| - 1]];
    }
  }

  lemma {:induction false} WithoutTwice(es: seq<Event>, a: set<int>, b: set<int>)
    ensures WithoutJobs(WithoutJobs(es, a), b) == WithoutJobs(es, a + b)
  {
    if |es| == 0 {
    } else {
      var front, last := es[..|es| - 1], es[|es| - 1];
      WithoutTwice(front, a, b);
      if last.jobId !in a {
        assert WithoutJobs(es, a)[..|WithoutJobs(es, a)| - 1] == WithoutJobs(front, a);
      } else {
        assert WithoutJobs(es, a) == WithoutJobs(front, a);
      }
    }
  }

  /** Retention leaves no expired terminal row, and of every other row both the row and its log; an event
      whose job existed still has one. A second run deletes nothing. */
  lemma RetentionExact(db: Db, window: int, id: int)
    requires forall e | e in db.events :: e.jobId in db.jobs
    ensures var after := Retain(db, window);
            && EligibleIds(after, window) == {} && Retain(after, window) == after
            && (id in after.jobs <==> id in db.jobs && !Eligible(db.jobs[id], db.now, window))
            && (id in after.jobs ==> after.jobs[id] == db.jobs[id] && Log(after.events, id) == Log(db.events, id))
            && forall e | e in after.events :: e.jobId in after.jobs
  {
    var gone := EligibleIds(db, window);
    var after := Retain(db, window);
    EligibleAfter(db, gone, window);
    DeleteNone(after);
    assert EligibleIds(after, window) == {};
    if id in after.jobs {
      LogWithout(db.events, gone, id);
    }
    forall e | e in after.events ensures e.jobId in after.jobs {
      WithoutMembers(db.events, gone, e);
    }
  }

  /** A non-empty set of jobs has a first one in lease order. */
  lemma {:induction false} FirstExists(db: Db, ids: set<int>)
    requires ids != {}
    requires forall id | id in ids :: id in db.jobs
    ensures exists id | id in ids :: forall j | j in ids && j != id :: Before(db, id, j)
    decreases |ids|
  {
    Inhabited(ids);
    var x :| x in ids;
    var rest := ids - {x};
    if rest == {} {
      assert forall j | j in ids && j != x :: j in rest;
    } else {
      FirstExists(db, rest);
      var y :| y in rest && forall j | j in rest && j != y :: Before(db, y, j);
      if Before(db, x, y) {
        forall j | j in ids && j != x ensures Before(db, x, j) {
          assert j in rest;
        }
      } else {
        forall j | j in ids && j != y ensures Before(db, y, j) {
          assert j == x || j in rest;
        }
      }
    }
  }
}
