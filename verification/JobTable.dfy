/**
 * The two queue tables and the statements issued against them, each statement a
 * function from one database value to the next. `transfer_events` keeps its
 * insertion order; timestamps are integer microseconds.
 */
module JobTable {
  import opened Common

  datatype Status = Pending | Leased | Succeeded | Skipped | Dead

  predicate Terminal(s: Status) {
    s == Succeeded || s == Skipped || s == Dead
  }

  datatype EventKind = EvEnqueue | EvLease | EvSuccess | EvSkip | EvFail | EvExpire | EvDead

  /** The kinds written by the statements that move a job to a terminal status. */
  predicate Closing(k: EventKind) {
    k == EvSuccess || k == EvSkip || k == EvDead
  }

  datatype Row = Row(
    traceId: string, src: string, dst: string, srcProtocol: string, dstProtocol: string,
    status: Status, attempts: int, maxAttempts: int,
    lockedAt: Option<int>, lockedBy: Option<string>,
    nextRunAt: int, createdAt: int, updatedAt: int)

  datatype Event = Event(jobId: int, traceId: string, kind: EventKind)

  /** `nextId` is the value the id sequence hands out next; `now` is NOW(). */
  datatype Db = Db(jobs: map<int, Row>, events: seq<Event>, nextId: int, now: int)

  const INT_MAX: int := 0x7FFF_FFFF
  const DEFAULT_MAX_ATTEMPTS: int := 5

  datatype JobSpec = JobSpec(traceId: string, src: string, dst: string, srcProtocol: string, dstProtocol: string)

  // ---- enqueue -------------------------------------------------------------

  predicate KeyTaken(db: Db, traceId: string, dst: string) {
    exists id | id in db.jobs :: db.jobs[id].traceId == traceId && db.jobs[id].dst == dst
  }

  function NewRow(spec: JobSpec, maxAttempts: int, now: int): Row {
    Row(spec.traceId, spec.src, spec.dst, spec.srcProtocol, spec.dstProtocol,
        Pending, 0, maxAttempts, None, None, now, now, now)
  }

  /** INSERT ... ON CONFLICT (trace_id, dst) DO NOTHING. A conflict still uses up an id. */
  function InsertJob(db: Db, spec: JobSpec, maxAttempts: int): Db {
    if KeyTaken(db, spec.traceId, spec.dst) then
      db.(nextId := db.nextId + 1)
    else
      db.(jobs := db.jobs[db.nextId := NewRow(spec, maxAttempts, db.now)], nextId := db.nextId + 1)
  }

  predicate ValidArgs(spec: JobSpec) {
    spec.traceId != "" && spec.src != "" && spec.dst != "" && spec.srcProtocol != "" && spec.dstProtocol != ""
  }

  /** A non-positive budget becomes the default; the column is a 32-bit INT. */
  function Budget(maxAttempts: int): int {
    if maxAttempts <= 0 then DEFAULT_MAX_ATTEMPTS else maxAttempts
  }

  predicate Accepted(spec: JobSpec, maxAttempts: int) {
    ValidArgs(spec) && Budget(maxAttempts) <= INT_MAX
  }

  /** jobs.Enqueue as one transaction: the row and its 'enqueue' event, or neither. */
  function Enqueue(db: Db, spec: JobSpec, maxAttempts: int): Db {
    if !Accepted(spec, maxAttempts) then db
    else
      var db' := InsertJob(db, spec, Budget(maxAttempts));
      if KeyTaken(db, spec.traceId, spec.dst) then db'
      else db'.(events := db.events + [Event(db.nextId, spec.traceId, EvEnqueue)])
  }

  /** The sniffer's multi-row insert: default budget and no event. */
  function InsertBatch(db: Db, specs: seq<JobSpec>): Db
    decreases |specs|
  {
    if |specs| == 0 then db
    else InsertBatch(InsertJob(db, specs[0], DEFAULT_MAX_ATTEMPTS), specs[1..])
  }

  // ---- lease ---------------------------------------------------------------

  predicate Due(db: Db, id: int) {
    id in db.jobs && db.jobs[id].status == Pending && db.jobs[id].nextRunAt <= db.now
  }

  /** ORDER BY next_run_at, id */
  predicate Before(db: Db, a: int, b: int)
    requires a in db.jobs && b in db.jobs
  {
    db.jobs[a].nextRunAt < db.jobs[b].nextRunAt || (db.jobs[a].nextRunAt == db.jobs[b].nextRunAt && a < b)
  }

  predicate IsNext(db: Db, id: int) {
    Due(db, id) && forall j | j in db.jobs && Due(db, j) && j != id :: Before(db, id, j)
  }

  function TakeLease(db: Db, id: int, name: string): Db
    requires id in db.jobs
  {
    db.(jobs := db.jobs[id := db.jobs[id].(status := Leased, lockedAt := Some(db.now),
                                           lockedBy := Some(name), updatedAt := db.now)])
  }

  // ---- outcome writes ------------------------------------------------------

  /** What processing decided; `Retry` carries the delay drawn for a further attempt. */
  datatype Outcome = Success | SkipJob | Permanent | Retry(delayMs: int)

  /** The predicate every outcome statement carries: id=$1 AND status='leased' AND locked_by=$me. */
  predicate Guard(db: Db, id: int, name: string) {
    id in db.jobs && db.jobs[id].status == Leased && db.jobs[id].lockedBy == Some(name)
  }

  predicate Exhausted(snapshot: Row) {
    snapshot.attempts + 1 >= snapshot.maxAttempts
  }

  function OutcomeKind(snapshot: Row, o: Outcome): EventKind {
    match o
    case Success => EvSuccess
    case SkipJob => EvSkip
    case Permanent => EvDead
    case Retry(_) => if Exhausted(snapshot) then EvDead else EvFail
  }

  /** The updated row. Every attempts value is computed from the snapshot, never from the row. */
  function OutcomeRow(row: Row, snapshot: Row, o: Outcome, now: int): Row {
    var freed := row.(lockedAt := None, lockedBy := None, updatedAt := now);
    match o
    case Success => freed.(status := Succeeded)
    case SkipJob => freed.(status := Skipped, attempts := snapshot.attempts)
    case Permanent => freed.(status := Dead, attempts := snapshot.attempts + 1)
    case Retry(delayMs) =>
      if Exhausted(snapshot) then freed.(status := Dead, attempts := snapshot.attempts + 1)
      else freed.(status := Pending, attempts := snapshot.attempts + 1, nextRunAt := now + delayMs * 1000)
  }

  /** One writable-CTE statement: the guarded UPDATE and the event it selects from it. */
  function WriteOutcome(db: Db, id: int, name: string, snapshot: Row, o: Outcome): Db {
    if !Guard(db, id, name) then db
    else
      db.(jobs := db.jobs[id := OutcomeRow(db.jobs[id], snapshot, o, db.now)],
          events := db.events + [Event(id, db.jobs[id].traceId, OutcomeKind(snapshot, o))])
  }

  // ---- sweep, drain, retention ---------------------------------------------

  function Requeued(row: Row, now: int): Row {
    row.(status := Pending, lockedAt := None, lockedBy := None, updatedAt := now)
  }

  predicate Expired(db: Db, id: int, threshold: int) {
    id in db.jobs && db.jobs[id].status == Leased && db.jobs[id].lockedAt.Some?
    && db.jobs[id].lockedAt.value < db.now - threshold
  }

  function ExpiredIds(db: Db, threshold: int): set<int> {
    set id | id in db.jobs && Expired(db, id, threshold)
  }

  function ExpireEvents(db: Db, order: seq<int>): seq<Event>
    requires forall i | 0 <= i < |order| :: order[i] in db.jobs
  {
    seq(|order|, i requires 0 <= i < |order| => Event(order[i], db.jobs[order[i]].traceId, EvExpire))
  }

  function RequeueAll(db: Db, ids: set<int>): map<int, Row> {
    map id | id in db.jobs :: if id in ids then Requeued(db.jobs[id], db.now) else db.jobs[id]
  }

  /** One sweep transaction; `order` is the order in which UPDATE ... RETURNING listed the rows. */
  function Sweep(db: Db, threshold: int, order: seq<int>): Db
    requires SeqSet(order) == ExpiredIds(db, threshold)
  {
    assert forall i | 0 <= i < |order| :: order[i] in SeqSet(order);
    db.(jobs := RequeueAll(db, ExpiredIds(db, threshold)),
        events := db.events + ExpireEvents(db, order))
  }

  function LeasedBy(db: Db, name: string): set<int> {
    set id | id in db.jobs && Guard(db, id, name)
  }

  function Drain(db: Db, name: string): Db {
    db.(jobs := RequeueAll(db, LeasedBy(db, name)))
  }

  predicate Eligible(row: Row, now: int, window: int) {
    Terminal(row.status) && row.updatedAt < now - window
  }

  function EligibleIds(db: Db, window: int): set<int> {
    set id | id in db.jobs && Eligible(db.jobs[id], db.now, window)
  }

  /** ON DELETE CASCADE: the events of deleted jobs go with them. */
  function WithoutJobs(events: seq<Event>, ids: set<int>): seq<Event> {
    if |events| == 0 then []
    else
      var last := events[|events| - 1];
      WithoutJobs(events[..|events| - 1], ids) + (if last.jobId in ids then [] else [last])
  }

  function DeleteJobs(db: Db, ids: set<int>): Db {
    db.(jobs := db.jobs - ids, events := WithoutJobs(db.events, ids))
  }

  function Retain(db: Db, window: int): Db {
    DeleteJobs(db, EligibleIds(db, window))
  }

  // ---- the event log of one job ---------------------------------------------

  /** The kinds of the events of job `id`, oldest first. */
  function Log(events: seq<Event>, id: int): seq<EventKind> {
    if |events| == 0 then []
    else
      var last := events[|events| - 1];
      Log(events[..|events| - 1], id) + (if last.jobId == id then [last.kind] else [])
  }

  lemma LogAppend(events: seq<Event>, e: Event, id: int)
    ensures Log(events + [e], id) == Log(events, id) + (if e.jobId == id then [e.kind] else [])
  {
  }

  lemma {:induction false} LogSweep(db: Db, events: seq<Event>, order: seq<int>, id: int)
    requires forall i | 0 <= i < |order| :: order[i] in db.jobs
    requires NoDup(order)
    ensures Log(events + ExpireEvents(db, order), id)
            == Log(events, id) + (if id in order then [EvExpire] else [])
    decreases |order|
  {
    if |order| == 0 {
      assert events + ExpireEvents(db, order) == events;
    } else {
      var front, last := order[..|order| - 1], order[|order| - 1];
      LogSweep(db, events, front, id);
      var e := Event(last, db.jobs[last].traceId, EvExpire);
      assert events + ExpireEvents(db, order) == events + ExpireEvents(db, front) + [e];
      LogAppend(events + ExpireEvents(db, front), e, id);
      assert id in order <==> id in front || id == last;
    }
  }

  lemma {:induction false} LogWithout(events: seq<Event>, ids: set<int>, id: int)
    requires id !in ids
    ensures Log(WithoutJobs(events, ids), id) == Log(events, id)
  {
    if |events| == 0 {
    } else {
      var front, last := events[..|events| - 1], events[|events| - 1];
      LogWithout(front, ids, id);
      if last.jobId in ids {
        assert WithoutJobs(events, ids) == WithoutJobs(front, ids);
      } else {
        LogAppend(WithoutJobs(front, ids), last, id);
      }
    }
  }

  lemma {:induction false} WithoutMembers(events: seq<Event>, ids: set<int>, e: Event)
    ensures e in WithoutJobs(events, ids) <==> e in events && e.jobId !in ids
  {
    if |events| == 0 {
    } else {
      var front, last := events[..|events| - 1], events[|events| - 1];
      WithoutMembers(front, ids, e);
      assert events == front + [last];
    }
  }
}
