/**
 * The lease protocol: any number of worker loops acting on the job table, each step one
 * statement or transaction. A worker acts from the snapshot it was handed at lease time.
 *
 * `leases` and `endings` are history variables: how many leases each job was given, and how
 * each of them ended, in order. An outcome write is booked against the lease its snapshot
 * came from, so a stale write that took effect would show up as a wrong serial.
 */
module LeaseProtocol {
  import opened Common
  import opened Durations
  import opened JobTable

  /** The row returned by the lease statement, and the ordinal of that lease. */
  datatype Snapshot = Snapshot(id: int, row: Row, serial: nat)

  /** One worker loop: its `lockedBy` name, and the job it is processing, if any. */
  datatype Worker = Worker(name: string, job: Option<Snapshot>)

  /** How a lease ended: Some(kind) for the event written with it, None for a shutdown drain. */
  datatype Ending = Ending(serial: nat, kind: Option<EventKind>)

  datatype Sys = Sys(db: Db, workers: map<int, Worker>, leases: map<int, nat>, endings: map<int, seq<Ending>>)

  datatype Label =
    | DoEnqueue(spec: JobSpec, maxAttempts: int)
    | DoInsertBatch(specs: seq<JobSpec>)
    | LoseIds(n: nat)                                   // an insert that was rolled back
    | Start(pid: int, name: string)
    | Lease(pid: int, id: Option<int>, acked: bool)     // acked=false: committed, reply lost
    | Write(pid: int, o: Outcome)
    | Finish(pid: int)
    | Crash(pid: int)
    | Shutdown(pid: int)
    | DoSweep(threshold: int, order: seq<int>)
    | DoRetain(window: int)
    | Tick(dt: nat)

  function LeasesOf(s: Sys, id: int): nat {
    if id in s.leases then s.leases[id] else 0
  }

  function EndingsOf(s: Sys, id: int): seq<Ending> {
    if id in s.endings then s.endings[id] else []
  }

  /** Some draw gives this delay for attempt k, on some platform. */
  ghost predicate DelayDrawn(k: int, delayMs: int) {
    k >= 0 ==> exists u: real, overflow: int :: 0.0 <= u < 1.0 && delayMs == RetryMillis(k, u, overflow)
  }

  predicate Idle(s: Sys, pid: int) {
    pid in s.workers && s.workers[pid].job.None?
  }

  predicate Busy(s: Sys, pid: int) {
    pid in s.workers && s.workers[pid].job.Some?
  }

  ghost predicate Enabled(s: Sys, l: Label) {
    match l
    case DoEnqueue(_, _) => true
    case DoInsertBatch(_) => true
    case LoseIds(_) => true
    case Start(pid, _) => pid !in s.workers
    case Lease(pid, id, _) =>
      Idle(s, pid) && (match id
                       case Some(j) => IsNext(s.db, j)
                       case None => forall j | j in s.db.jobs :: !Due(s.db, j))
    case Write(pid, o) =>
      Busy(s, pid)
      && (o.Retry? ==> DelayDrawn(s.workers[pid].job.value.row.attempts + 1, o.delayMs))
    case Finish(pid) => Busy(s, pid)
    case Crash(pid) => pid in s.workers
    case Shutdown(pid) => Idle(s, pid)
    case DoSweep(threshold, order) => NoDup(order) && SeqSet(order) == ExpiredIds(s.db, threshold)
    case DoRetain(_) => true
    case Tick(_) => true
  }

  function StepLease(s: Sys, pid: int, id: int, acked: bool): Sys
    requires pid in s.workers && id in s.db.jobs
  {
    var db := TakeLease(s.db, id, s.workers[pid].name);
    var serial := LeasesOf(s, id) + 1;
    s.(db := db,
       leases := s.leases[id := serial],
       workers := if acked
                  then s.workers[pid := s.workers[pid].(job := Some(Snapshot(id, db.jobs[id], serial)))]
                  else s.workers)
  }

  function StepWrite(s: Sys, pid: int, o: Outcome): Sys
    requires Busy(s, pid)
  {
    var w := s.workers[pid];
    var snap := w.job.value;
    if !Guard(s.db, snap.id, w.name) then s
    else
      s.(db := WriteOutcome(s.db, snap.id, w.name, snap.row, o),
         endings := s.endings[snap.id := EndingsOf(s, snap.id)
                                         + [Ending(snap.serial, Some(OutcomeKind(snap.row, o)))]])
  }

  /** Books the end of the current lease of every job in `ids`. */
  function EndAll(s: Sys, ids: set<int>, kind: Option<EventKind>): map<int, seq<Ending>> {
    map id | id in s.endings.Keys + ids ::
      if id in ids then EndingsOf(s, id) + [Ending(LeasesOf(s, id), kind)] else s.endings[id]
  }

  function StepSweep(s: Sys, threshold: int, order: seq<int>): Sys
    requires SeqSet(order) == ExpiredIds(s.db, threshold)
  {
    s.(db := Sweep(s.db, threshold, order),
       endings := EndAll(s, ExpiredIds(s.db, threshold), Some(EvExpire)))
  }

  function StepShutdown(s: Sys, pid: int): Sys
    requires pid in s.workers
  {
    var name := s.workers[pid].name;
    s.(db := Drain(s.db, name),
       workers := s.workers - {pid},
       endings := EndAll(s, LeasedBy(s.db, name), None))
  }

  function Next(s: Sys, l: Label): Sys
    requires Enabled(s, l)
  {
    match l
    case DoEnqueue(spec, maxAttempts) => s.(db := Enqueue(s.db, spec, maxAttempts))
    case DoInsertBatch(specs) => s.(db := InsertBatch(s.db, specs))
    case LoseIds(n) => s.(db := s.db.(nextId := s.db.nextId + n))
    case Start(pid, name) => s.(workers := s.workers[pid := Worker(name, None)])
    case Lease(pid, id, acked) =>
      (match id
       case Some(j) => StepLease(s, pid, j, acked)
       case None => s)
    case Write(pid, o) => StepWrite(s, pid, o)
    case Finish(pid) => s.(workers := s.workers[pid := s.workers[pid].(job := None)])
    case Crash(pid) => s.(workers := s.workers - {pid})
    case Shutdown(pid) => StepShutdown(s, pid)
    case DoSweep(threshold, order) => StepSweep(s, threshold, order)
    case DoRetain(window) => s.(db := Retain(s.db, window))
    case Tick(dt) => s.(db := s.db.(now := s.db.now + dt))
  }

  /** No two live worker loops share a `lockedBy` name. */
  ghost predicate NamesDistinct(s: Sys) {
    forall p, q | p in s.workers && q in s.workers && p != q :: s.workers[p].name != s.workers[q].name
  }

  predicate Init(s: Sys) {
    s.db.jobs == map[] && s.db.events == [] && s.workers == map[] && s.leases == map[] && s.endings == map[]
  }

  /** A run: every step enabled, worker names distinct throughout. */
  ghost predicate Run(s: Sys, ls: seq<Label>)
    decreases |ls|
  {
    NamesDistinct(s) && (|ls| > 0 ==> Enabled(s, ls[0]) && Run(Next(s, ls[0]), ls[1..]))
  }

  ghost function Exec(s: Sys, ls: seq<Label>): Sys
    requires Run(s, ls)
    decreases |ls|
  {
    if |ls| == 0 then s else Exec(Next(s, ls[0]), ls[1..])
  }

  // ---- the invariant ---------------------------------------------------------

  /** Everything about one job: its row, its event log and its lease history. */
  datatype Cell = Cell(row: Row, log: seq<EventKind>, leases: nat, endings: seq<Ending>)

  ghost function CellOf(s: Sys, id: int): Cell
    requires id in s.db.jobs
  {
    Cell(s.db.jobs[id], Log(s.db.events, id), LeasesOf(s, id), EndingsOf(s, id))
  }

  ghost predicate RowOk(r: Row, now: int) {
    && (r.status == Leased <==> r.lockedAt.Some?)
    && (r.status == Leased <==> r.lockedBy.Some?)
    && (r.status == Leased ==> r.nextRunAt <= r.lockedAt.value <= now)
    && 0 <= r.attempts && 1 <= r.maxAttempts <= INT_MAX
    && (if r.status == Dead then r.attempts <= r.maxAttempts else r.attempts < r.maxAttempts)
  }

  function ClosingKind(s: Status): Option<EventKind> {
    match s
    case Succeeded => Some(EvSuccess)
    case Skipped => Some(EvSkip)
    case Dead => Some(EvDead)
    case _ => None
  }

  /** enqueue? (fail|expire)* (success|skip|dead)?, closed exactly when the status is terminal. */
  ghost predicate AuditShape(status: Status, log: seq<EventKind>) {
    && (forall i | 0 <= i < |log| :: log[i] == EvEnqueue ==> i == 0)
    && (forall i | 0 <= i < |log| :: Closing(log[i]) ==> i == |log| - 1)
    && (forall i | 0 <= i < |log| :: log[i] != EvLease)
    && (match ClosingKind(status)
        case Some(k) => |log| > 0 && log[|log| - 1] == k
        case None => |log| > 0 ==> !Closing(log[|log| - 1]))
  }

  /** The log after its optional enqueue event. */
  function Body(log: seq<EventKind>): seq<EventKind> {
    if |log| > 0 && log[0] == EvEnqueue then log[1..] else log
  }

  function KindsOf(es: seq<Ending>): seq<EventKind> {
    if |es| == 0 then []
    else
      var last := es[|es| - 1].kind;
      KindsOf(es[..|es| - 1]) + (if last.Some? then [last.value] else [])
  }

  ghost predicate HistoryOk(c: Cell) {
    && (forall i | 0 <= i < |c.endings| :: c.endings[i].serial == i + 1)
    && |c.endings| + (if c.row.status == Leased then 1 else 0) == c.leases
    && KindsOf(c.endings) == Body(c.log)
  }

  ghost predicate CellOk(c: Cell, now: int) {
    && RowOk(c.row, now)
    && AuditShape(c.row.status, c.log)
    && c.row.attempts == multiset(c.log)[EvFail] + multiset(c.log)[EvDead]
    && HistoryOk(c)
  }

  ghost predicate Keyed(db: Db) {
    && (forall id | id in db.jobs :: id < db.nextId)
    && (forall a, b | a in db.jobs && b in db.jobs && a != b ::
          db.jobs[a].traceId != db.jobs[b].traceId || db.jobs[a].dst != db.jobs[b].dst)
  }

  /** The foreign key of transfer_events. */
  ghost predicate EventsOwned(db: Db) {
    forall e | e in db.events :: e.jobId in db.jobs && e.traceId == db.jobs[e.jobId].traceId
  }

  ghost predicate HistoryBounded(s: Sys) {
    && (forall id | id in s.leases :: id < s.db.nextId)
    && (forall id | id in s.endings :: id < s.db.nextId)
  }

  /** If the row is still leased under the worker's name, it is in the very lease of its snapshot. */
  ghost predicate Fenced(s: Sys, w: Worker) {
    w.job.Some? ==>
      var snap := w.job.value;
      && snap.id < s.db.nextId
      && 0 <= snap.row.attempts < snap.row.maxAttempts
      && (Guard(s.db, snap.id, w.name) ==>
            && snap.serial == LeasesOf(s, snap.id)
            && s.db.jobs[snap.id] == snap.row)
  }

  ghost predicate CellsOk(s: Sys) {
    forall id | id in s.db.jobs :: CellOk(CellOf(s, id), s.db.now)
  }

  ghost predicate WorkersFenced(s: Sys) {
    forall p | p in s.workers :: Fenced(s, s.workers[p])
  }

  ghost predicate Inv(s: Sys) {
    Keyed(s.db) && EventsOwned(s.db) && HistoryBounded(s) && CellsOk(s) && WorkersFenced(s)
  }

  // ---- one job at a time -------------------------------------------------------

  lemma CellLease(c: Cell, c': Cell, now: int, name: string)
    requires CellOk(c, now) && c.row.status == Pending && c.row.nextRunAt <= now
    requires c' == Cell(c.row.(status := Leased, lockedAt := Some(now), lockedBy := Some(name), updatedAt := now),
                        c.log, c.leases + 1, c.endings)
    ensures CellOk(c', now)
  {
  }

  /** The current lease ends: by a drain, which writes no event, or with an event of kind `k`. */
  lemma CellDrain(c: Cell, c': Cell, now: int)
    requires CellOk(c, now) && c.row.status == Leased
    requires c' == Cell(Requeued(c.row, now), c.log, c.leases, c.endings + [Ending(c.leases, None)])
    ensures CellOk(c', now)
  {
  }

  lemma CellEvent(c: Cell, c': Cell, now: int, k: EventKind)
    requires CellOk(c, now) && c.row.status == Leased && k != EvEnqueue && k != EvLease
    requires c'.log == c.log + [k] && c'.leases == c.leases
    requires c'.endings == c.endings + [Ending(c.leases, Some(k))]
    requires RowOk(c'.row, now) && c'.row.status != Leased
    requires match ClosingKind(c'.row.status) case Some(kk) => kk == k case None => !Closing(k)
    requires c'.row.attempts == c.row.attempts + (if k == EvFail || k == EvDead then 1 else 0)
    ensures CellOk(c', now)
  {
    assert Body(c'.log) == Body(c.log) + [k];
    assert forall i | 0 <= i < |c'.log| :: c'.log[i] == if i < |c.log| then c.log[i] else k;
  }

  lemma CellExpire(c: Cell, c': Cell, now: int)
    requires CellOk(c, now) && c.row.status == Leased
    requires c' == Cell(Requeued(c.row, now), c.log + [EvExpire], c.leases,
                        c.endings + [Ending(c.leases, Some(EvExpire))])
    ensures CellOk(c', now)
  {
    CellEvent(c, c', now, EvExpire);
  }

  lemma CellOutcome(c: Cell, c': Cell, now: int, o: Outcome)
    requires CellOk(c, now) && c.row.status == Leased
    requires var k := OutcomeKind(c.row, o);
             c' == Cell(OutcomeRow(c.row, c.row, o, now), c.log + [k], c.leases,
                        c.endings + [Ending(c.leases, Some(k))])
    ensures CellOk(c', now)
  {
    CellEvent(c, c', now, OutcomeKind(c.row, o));
  }
}
