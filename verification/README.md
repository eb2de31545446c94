# imgsync, verified

imgsync moves files between hosts. A PostgreSQL table is its queue: a sniffer turns new rows of a source
table into jobs, worker loops lease jobs and transfer them, a sweeper takes back leases that got too old, and a
retention pass deletes finished jobs. This project models the parts whose correctness depends on how many
actors interleave, and proves what holds over every run of them.

| part | files |
|---|---|
| The job table, one function per SQL statement; the store object whose methods are the Go calls | `JobTable`, `Store` |
| The lease protocol: any number of workers, sweeps, drains, crashes, retention | `LeaseProtocol`, `LeaseInvariant`, `LeaseTheorems`, `LeaseRows`, `SharedName`, `ExpiredLease`, `Overtaking`, `Overtaken` |
| The FTP connection pool: the object, and its goroutines step by step | `FtpPool`, `FtpPoolSystem`, `FtpPoolPlaces`, `FtpPoolTheorems`, `FtpPoolAges`, `FtpPoolOrder`, `FtpPoolClosed` |
| The sniffer: window query, batch statement, poll, and polls against a changing source | `SnifferQuery`, `SnifferEnqueue`, `SnifferValues`, `Sniffer`, `SnifferSystem`, `SnifferTheorems`, `SnifferReplay`, `Decimal` |
| The cluster-wide cap on transfers per host | `HostCap`, `HostCapSystem`, `HostCapLosses`, `HostCapLocks`, `HostCapRounds`, `HostCapHosts` |
| The idle backoff shared by a pod's workers | `IdleBackoff`, `IdleWakeAll` |
| One job from source to destination | `ByteStream`, `CtxReader`, `LocalFs`, `LocalFsSystem`, `LocalFsRun`, `LocalFsPower`, `ProcessJob` |
| Durations as int64 nanoseconds, SQL intervals and microseconds | `Durations` |

The code that changes state is modelled in that form: `Store.JobStore`, `FtpPool.Pool`, `Sniffer.Poller`,
`IdleBackoff.Idle` and `LocalFs.Disk` are classes, and their methods are proved against functions on values. The
step systems are tied to the same functions. The lease protocol and the pool's step system are built from them. A
clean poll is four steps of the sniffer's system (`StepsMakePoll`). Each step of the idle backoff under its mutex is a
method of the object (`StepIsMethod`), a round of the host cap's loop is a round of its system (`LoopAgrees`), and a
send to the disk is a run of the filesystem's (`SendIsRun`). So what is proved over all runs is about what the methods do.

## What is assumed

- Each SQL statement or transaction is one atomic step. One whose reply is lost was either committed or not.
- The database clock does not go backward; ids are not reused; `(trace_id, dst)` is unique; deleting a job
  deletes its events.
- Live worker loops have distinct `lockedBy` names. Without that the fence fails: `SharedNameBreaksFence`.
- One sniffer polls a source, whose primary key is an integer. Rendering is any partial function of the selected
  columns, key and timestamp among them. Jobs may also be enqueued from elsewhere and deleted at any time.
- Random draws are exact numbers of their range. A hash is any function unless a row says more, a probe may start at
  any slot.
- The caller of the context-aware reader makes one Read at a time and stops at the first error.
- CreateTemp returns a name not in use; destinations do not themselves look like its temporary names; a rename
  is atomic, and lasting once done.

## Where the code does less than one might expect

Each comes with a run or an input that shows it, and with the condition under which the expectation does hold.

- A retry delay is within 25% of 2^attempts seconds if and only if attempts is at most 32 (`RetryDelayLands`). A
  waiting job is never overtaken by a retry if and only if no budget exceeds 33 attempts (`OvertakingFreeIff`).
- The sweeper rounds its threshold, and retention its window, down to whole seconds: leases are recovered and jobs
  deleted early unless it is a whole number of seconds (`ThresholdHonoured`, `WindowHonoured`).
- The sniffer rounds its bias towards zero to whole seconds: rows are fetched younger than it unless it is a whole
  number of seconds (`BiasHonoured`). No row is ever skipped if and only if the bias reaches the next whole second
  after the longest time a row takes to become visible, unless nothing can be fetched or rendered at all
  (`CompleteIffLagBelowBias`).
- Trace ids of two tables can coincide, as those of key -1 in `t` and key 1 in `t-`: exactly when one table is named like the other with a dash appended and the
  keys are each other's negatives (`TraceIDsCollideIff`).
- A source row ever has one job if and only if none of its versions that were sent went elsewhere and nobody else
  enqueued another job of it (`ExactlyOneKey`, `RetargetedTwice`).
- A poll that fails after its batch was enqueued can leave a job that would not be there otherwise
  (`UpdateLeavesTrace`). It makes no difference if and only if each new job of the batch is deleted later, or would
  have been enqueued just the same by what follows (`NoTraceIff`); so it is, below the bias, when the batch is polled
  again before its rows are updated (`FailureLeavesNoTrace`).
- The host-cap wait doubles as intended if and only if its base is below 2^62 ns (`WaitSchedule`), and the idle delay
  stays a usable duration if and only if its maximum is (`NominalSafe`). Jitter keeps them within a quarter if and only
  if the largest offset does not reach 2^63 ns (`JitterWithinQuarter`, `DelayWithinQuarter`).
- A round of the host cap can fail although a slot is free at every moment (`MissingRound`). It fails if and only if
  each slot was taken when it was probed (`RoundFailsIff`).
- A database session lost while sending frees its host-cap slot and the transfer goes on (`DropExceedsCap`). All the
  sends to a host stay within the cap in the runs with at most n such losses if and only if n and the number of
  distinct lock keys of its slots do (`CapHoldsIff`), which for distinct keys means n is 0 (`CapHoldsIffNoneLost`).
- An unlock that fails leaves its host-cap slot taken although nobody sends (`FailedUnlockLeaks`). A session holds a
  slot if and only if it is sending in it or failed to unlock it since it was last lost (`LocksAccounted`).
- Closing the FTP pool can leave a waiter parked for good (`CloseStrandsWaiter`): without cancellations exactly when a
  host had more waiters than slots in use (`StrandedIff`).
- A destination can be replaced by a job whose row does not become succeeded, exactly when the size check, the
  closing of the source, the outcome write or the lease goes wrong after the rename (`ReplacedWithoutSuccess`).
- The documentation speaks of one attempt per lease. The code counts an attempt only when it writes a failure, and the
  model follows the code: a lease that expires costs none (`ExpiryCostsNoAttempt`). Attempts and leases of a job agree
  if and only if none of its leases expired or was drained and it is pending or dead (`AttemptPerLeaseIff`).

## Model

| member | source | states |
|---|---|---|
| `LeaseTheorems.Fencing` | internal/worker/process.go:111-118 | In every run, a worker whose row is still leased under its name is in the very lease its snapshot came from: same row, same lease ordinal. |
| `LeaseTheorems.EffectiveWrite` | internal/worker/process.go:161-178 | In every run, an outcome write either changes nothing or ends exactly the lease in progress: one event, attempts one higher exactly for fail and dead, no other row touched. |
| `LeaseTheorems.SpentForever` | internal/worker/process.go:201-209 | Once a worker's write has landed or its lease was taken away, nothing it writes from that snapshot ever takes effect, whatever the others do. |
| `LeaseTheorems.SecondWriteIsNoOp` | internal/worker/runner.go:132-148 | The second outcome write tried after a recovered panic changes nothing, even after any further steps of the system. |
| `LeaseTheorems.OneEndingPerLease` | internal/worker/process.go:100-213 | Over the whole life of every job, deleted ones included, no lease is ended twice by an outcome, an expiry or a drain. |
| `LeaseTheorems.AuditLaw` | internal/worker/process.go:100-213 | For every surviving job of every run the log is the optional enqueue event followed by exactly the events of its ended leases, closed as the status says, and attempts is the number of fail and dead events. |
| `LeaseTheorems.AuditSplit` | migrations/0001_initial.up.sql:44-53 | The log splits into an optional enqueue, then fail and expire events only, then one closing event exactly when the status is terminal, of the kind of that status. |
| `LeaseTheorems.LeaseAccounting` | internal/worker/process.go:146-153 | Leases taken are outcomes plus expiries plus drains plus the one in progress; attempts stays below the budget until the job dies; leases never exceed budget plus expiries plus drains. |
| `LeaseTheorems.AttemptPerLeaseIff` | internal/worker/process.go:146-184 | In every run, a surviving job has as many attempts counted as leases taken if and only if no lease of it expired or was drained and its status is pending or dead. |
| `LeaseTheorems.AlwaysFailingDies` | internal/worker/runner.go:127-148 | A job with as many failures recorded as its budget is dead with its whole budget spent, whatever expiries and drains came in between. |
| `LeaseTheorems.SweepRecoversExactly` | internal/sweeper/sweeper.go:54-92 | In every reachable state a sweep recovers exactly the over-age leases, one expire event each, attempts and next_run_at untouched, all due at once. |
| `LeaseTheorems.ThresholdSafety` | internal/sweeper/sweeper.go:54-59 | A worker that has neither written nor given up keeps its lease until locked_at plus the threshold, whatever the rest of the system does. |
| `LeaseTheorems.TimelyWriteLands` | internal/worker/process.go:111-118 | An outcome written no later than locked_at plus the threshold takes effect, on the row as it was leased, and ends that lease. |
| `LeaseRows.DrainHandsBackExactly` | internal/worker/runner.go:178-192 | In every reachable state a shutdown leaves no row leased under the worker's name: each that was is due at once with only its lease gone and one ending without an event; every other row and the log are as before. |
| `LeaseRows.OutcomeRecorded` | internal/worker/process.go:100-213 | In every run an outcome that takes effect leaves, column by column, succeeded, skipped, dead or pending with its delay, and one event of the matching kind, computed from the row as it is. |
| `LeaseRows.StepStamps` | internal/jobs/enqueue.go:43-66 | A row after any step is as it was, or carries the time of the step, or is new: pending, unlocked, due at once, without attempts. |
| `LeaseRows.DeletedByAge` | internal/retention/retention.go:72-83 | In every run, retention deletes a job if and only if it became succeeded, skipped or dead longer ago than the window. |
| `LeaseRows.CrashedLeaseStays` | internal/worker/runner.go:81-126 | The lease of a crashed worker stays as it is, whatever the others do, until a sweep or a loop of the same name. |
| `LeaseInvariant.StepKeepsInv` | internal/worker/runner.go:81-126 | Every step of workers, sniffer, sweeper and retention keeps the invariant: unique keys, owned events, per-job audit and history, every worker fenced. |
| `LeaseInvariant.RunKeepsInv` | internal/worker/runner.go:81-126 | The invariant holds after any run. |
| `SharedName.SharedNameBreaksFence` | internal/worker/runner.go:65-84 | A concrete run of two loops with one name in which an outcome is accepted for a lease its writer does not hold. |
| `ExpiredLease.ExpiryCostsNoAttempt` | internal/sweeper/sweeper.go:54-92 | A run from the empty table in which a job is leased once, its lease expires and is swept, and no attempt is counted. |
| `Overtaking.StepRank` | internal/worker/job.go:39-47 | No enqueue, retry or other step raises the number of due jobs ahead of a due job, and each lease of another job lowers it by exactly one. |
| `Overtaking.LeasesBoundedByRank` | internal/worker/job.go:39-47 | While a due job waits, the leases taken by others plus the jobs still ahead equal the jobs that were ahead. |
| `Overtaking.BoundedOvertaking` | internal/worker/job.go:36-51 | In any run without expiries and drains that takes more leases than there were jobs ahead, the job itself is leased. |
| `Overtaking.RetryRank` | internal/worker/process.go:154-171 | A retry raises the number of jobs ahead of a due job exactly when its new time and id come before that job, and then by one. |
| `Overtaken.LongBudgetOvertakes` | internal/worker/process.go:154-171 | A run from the empty table: with a budget of 34 a job fails 32 times, and the delay that amd64 makes of the next failure puts it ahead of a waiting job. The waits of the run add up to 2^33 - 2 seconds, some 272 years. |
| `Overtaken.OvertakingFreeIff` | internal/worker/errdetail.go:38-44 | No run without expiries and drains ever puts a job ahead of a due one if and only if no budget exceeds 33. |
| `Durations.RetryDelayLands` | internal/worker/errdetail.go:38-44 | All draws of the retry delay fit a duration and lie within 25% of 2^attempts seconds if and only if attempts is at most 32. |
| `Durations.RetryMillisBounds` | internal/worker/process.go:154-172 | For 1 to 32 attempts the milliseconds put into the retry statement are within a quarter of 2^attempts seconds. |
| `Durations.RetryMillisCut` | internal/worker/process.go:154-172 | They are the drawn nanoseconds cut to whole milliseconds. |
| `Durations.DelayOverflows` | internal/worker/errdetail.go:38-44 | For every attempt and draw, the float fits a duration if and only if the attempt is at most 32, or 33 with a draw below 0.647483648, or at least 64; otherwise the statement gets what the platform makes of it. |
| `Durations.NoDelayFrom64` | internal/worker/errdetail.go:38-44 | From attempt 64 on the delay is zero, whatever is drawn. |
| `Durations.ThresholdHonoured` | internal/sweeper/sweeper.go:34-58 | No lease is recovered before the configured threshold if and only if that threshold is a whole number of seconds, up to a microsecond; a threshold that is not positive counts as five minutes. |
| `Durations.WindowHonoured` | internal/retention/retention.go:72-83 | No job is deleted within the configured window if and only if that window is a whole number of seconds, up to a microsecond. |
| `Store.JobStore.Enqueue` | internal/jobs/enqueue.go:25-83 | Rejects exactly an empty argument or a budget over 32 bits; otherwise inserts the row, every argument in its column and a budget that is not positive replaced by 5, with its event, or reports the row that has the key. |
| `Store.JobStore.LeaseJob` | internal/worker/job.go:36-64 | Leases the first due job by next_run_at and id and returns its row, or reports none exactly when nothing is due. |
| `Store.JobStore.WriteTerminalWithAttempts` | internal/worker/process.go:194-213 | Guarded update and event together, or nothing. |
| `Store.JobStore.WriteSuccess` | internal/worker/process.go:100-122 | Is the guarded success outcome of the protocol. |
| `Store.JobStore.WriteRetryOrDead` | internal/worker/process.go:146-184 | Is the guarded retry outcome of the protocol, dead when the budget is spent; with the label it reports. |
| `Store.JobStore.ClassifyAndWrite` | internal/worker/process.go:126-141 | Under the guard a skippable error leaves the row skipped, a permanent one dead, a retryable one pending with its delay or dead when the budget is spent, with attempts and event to match; the label names the status. |
| `Store.JobStore.DrainLease` | internal/worker/runner.go:182-192 | Is the drain of the protocol, which hands back exactly the rows leased under the name. |
| `Store.JobStore.Sweep` | internal/sweeper/sweeper.go:33-98 | Without the lock or the commit nothing changes; otherwise the expired rows are requeued with one event each, and their number is reported. |
| `Store.Collect` | internal/sweeper/sweeper.go:63-78 | The returned rows are collected completely, each once, with their trace ids. |
| `Store.JobStore.RetentionSweep` | internal/retention/retention.go:48-97 | Deletes all n eligible rows in floor(n / batch) + 1 statements and reports n; nothing when disabled, unlocked or rolled back. |
| `Store.JobStore.DeleteUntilShort` | internal/retention/retention.go:73-91 | The batched loop ends, and its batches together are the one delete of all eligible rows. |
| `Store.RetentionExact` | migrations/0001_initial.up.sql:44-53 | After retention no eligible row is left, every other row and its log are untouched, no event lacks its job, and a second pass deletes nothing. |
| `FtpPool.ScanShape` | internal/transports/ftp/pool.go:143-157 | The scan for an idle connection takes a suffix off the idle list: the entries over their time to live from the end, then at most one that is within it. |
| `FtpPool.Pool.constructor` | internal/transports/ftp/pool.go:71-88 | Starts open and empty; settings that are not positive become 4 connections, 300 s and 60 s. |
| `FtpPool.Pool.AcquireRound` | internal/transports/ftp/pool.go:131-211 | One locked section of Acquire is the specified decision: closed, take an idle connection, dial, or park. |
| `FtpPool.Pool.WakeOneWaiter` | internal/transports/ftp/pool.go:119-128 | Pops the first waiter and sends it the token, if there is one. |
| `FtpPool.Pool.FreeSlotAfterFailure` | internal/transports/ftp/pool.go:169-176 | Gives up a slot after a failed ping or dial and wakes the first waiter. |
| `FtpPool.Pool.Release` | internal/transports/ftp/pool.go:268-294 | Returns the connection to idle, or quits it when broken or the pool is closed, frees the slot and wakes one waiter. |
| `FtpPool.Pool.AbandonWait` | internal/transports/ftp/pool.go:213-236 | A cancelled waiter leaves the queue, or passes its token on when it was already popped. |
| `FtpPool.Pool.Close` | internal/transports/ftp/pool.go:92-102 | Quits every idle connection of every host, in whatever order, and empties the idle lists. |
| `FtpPool.PooledConn.Release` | internal/transports/ftp/pool.go:41-47 | The first release is the pool's release of the connection, with its wake-up and its quit; a second one changes nothing. |
| `FtpPoolTheorems.NoLostWakeup` | internal/transports/ftp/pool.go:119-241 | In every reachable state of an open pool, free slots of a host with waiters never outnumber the woken goroutines; with none woken every slot is in use. |
| `FtpPoolTheorems.SlotsConserved` | internal/transports/ftp/pool.go:143-205 | In every reachable state inUse counts exactly the goroutines dialling, pinging or holding, inUse plus idle stays within the cap, and a closed pool has no idle connection. |
| `FtpPoolTheorems.OnePlacePerConnection` | internal/transports/ftp/pool.go:131-294 | Every connection ever dialled is in exactly one place: idle once, held by one goroutine, or quit once. |
| `FtpPoolTheorems.RunKeepsInv` | internal/transports/ftp/pool.go:131-294 | Counts, queues and places stay consistent in every run, with dialling, pinging, barging, cancellation and Close. |
| `FtpPoolAges.TryDecides` | internal/transports/ftp/pool.go:131-211 | In every reachable state of an open pool a goroutine takes an idle connection if and only if one was last released within the time to live; it holds it at once exactly when that was within the NOOP limit and pings it otherwise; without one it dials if a slot is free and parks if none is. |
| `FtpPoolOrder.LongestWaiterIsWoken` | internal/transports/ftp/pool.go:119-128 | In every run the goroutine that is sent a token has waited for the host longest. |
| `FtpPoolOrder.YoungestIsTaken` | internal/transports/ftp/pool.go:143-157 | With a clock that does not go backward, no idle connection of the host was released after the one taken. |
| `FtpPoolClosed.StrandedForever` | internal/transports/ftp/pool.go:92-102 | In a closed pool whose goroutines are all parked or retrying, nothing but its own context ends a parked goroutine's wait. |
| `FtpPoolClosed.CloseStrandsWaiter` | internal/transports/ftp/pool.go:131-137 | A concrete run after which a waiter is parked although the slot is free and nobody was woken. |
| `FtpPoolClosed.StrandedIff` | internal/transports/ftp/pool.go:92-102 | After Close, once a host's slots are all given up and nobody cancelled, somebody is left parked without a token if and only if there were more waiters than slots in use at Close; with cancellations that remains necessary. |
| `SnifferQuery.FetchIsFirstEligible` | internal/sniffer/query.go:76-105 | A fetch returns, in (ts, pk) order, the rows later than the watermark, by time alone on a first run, and at least the interval old, up to the batch size, and misses none at or below its last row. |
| `SnifferQuery.BiasMeaning` | internal/sniffer/query.go:70-81 | The interval is the configured bias cut to whole seconds, towards zero. |
| `SnifferQuery.BiasHonoured` | internal/sniffer/query.go:70-81 | No fetched row is younger than the configured bias, in nanoseconds, if and only if that bias is a whole number of seconds or negative. |
| `SnifferQuery.OldEnoughIsEligible` | internal/sniffer/query.go:70-105 | Every row above the watermark as old as the configured bias is eligible if and only if that bias is not negative, or a whole number of seconds up to a microsecond. |
| `SnifferQuery.ScanResumes` | internal/sniffer/query.go:91-105 | Restarting from the (ts, pk) of any returned row leaves exactly the rows after it. |
| `SnifferQuery.DrainByPages` | internal/sniffer/query.go:76-105 | Polling a fixed table returns consecutive pages of the one sorted scan, ceil(n / batch) of them, all non-empty, whatever timestamps tie. |
| `SnifferQuery.CeilMeaning` | internal/sniffer/query.go:76-105 | The number of pages is n / batch rounded up: that many batches hold n rows, and one fewer would not. |
| `SnifferEnqueue.BatchRefinesRows` | internal/sniffer/enqueue.go:34-74 | The multi-row statement leaves the same rows and reports the same count as enqueueing its rows one by one, duplicates included. |
| `SnifferEnqueue.BuildInsert` | internal/sniffer/enqueue.go:56-69 | The placeholder groups, bound to the arguments built beside them, are exactly the given jobs. |
| `SnifferValues.PlaceholdersInOrder` | internal/sniffer/enqueue.go:56-69 | Read back, the text for n jobs holds the placeholders 1 to 5n, each once and in order. |
| `SnifferEnqueue.InsertTwice` | internal/sniffer/enqueue.go:34-46 | Enqueueing the same jobs again changes nothing. |
| `SnifferEnqueue.BatchShows` | internal/sniffer/enqueue.go:52-74 | The batch step of the lease protocol and the multi-row statement give the same keyed rows. |
| `Sniffer.TraceIDInjective` | internal/sniffer/traceid.go:15-17 | Within one table a trace id determines the row. |
| `Sniffer.TraceIDsCollideIff` | internal/sniffer/traceid.go:15-17 | The exact pairs of rows of any two tables that share a trace id. |
| `Sniffer.SpecForExact` | internal/sniffer/sniffer.go:98-117 | A row has a job exactly when both templates render, with destination, source, trace id and the two protocols each in its place. |
| `Decimal.ItoaRoundTrip` | internal/sniffer/query.go:120-129 | A key printed into the watermark is read back as the same integer. |
| `Sniffer.MarkRoundTrip` | internal/sniffer/state.go:35-66 | The watermark loaded is the one saved, the empty key and no other stored as NULL; other sources keep theirs. |
| `Sniffer.Poller.ReadFields` | internal/sniffer/query.go:115-129 | The fields of a row are exactly the selected columns: the key in decimal, the timestamp as text, the extra columns with NULL as the empty text. |
| `Sniffer.Poller.Render` | internal/sniffer/sniffer.go:98-117 | Collects the jobs of the renderable rows in order and skips the others. |
| `Sniffer.Poller.EnqueueBatch` | internal/sniffer/enqueue.go:52-74 | Inserts the jobs whose key is free and reports how many. |
| `Sniffer.Poller.RunOnce` | internal/sniffer/sniffer.go:75-135 | Leaves exactly what the poll specification says for a failure at any step, committed or not, and reports the inserted count, also when only the save fails. |
| `Sniffer.FailedThenClean` | internal/sniffer/sniffer.go:118-133 | A poll failing anywhere, followed at any later time by a clean poll of the same rows, leaves what the clean one alone would. |
| `SnifferSystem.StepsMakePoll` | internal/sniffer/sniffer.go:75-135 | The four steps taken without interruption are one clean poll. |
| `SnifferSystem.StepKeepsInv` | internal/sniffer/sniffer.go:75-135 | Every step of the sniffer, of its source and of the others who use the job table keeps completeness, given a lag below the effective bias. |
| `SnifferTheorems.NothingSkipped` | internal/sniffer/sniffer.go:75-135 | With a lag below the effective bias, after any interleaving of polls, failures, row changes, deletions and enqueues from elsewhere, every row at or below the watermark was in an enqueued batch and had its job in the table, or cannot be rendered. |
| `SnifferTheorems.KeysOfRow` | internal/sniffer/traceid.go:15-17 | In every run, whatever the lag, the keys under a row's trace id that the table ever held are exactly those of its versions that were in an enqueued batch and those enqueued from elsewhere. |
| `SnifferTheorems.ExactlyOneKey` | internal/sniffer/sniffer.go:98-117 | A renderable row at or below the watermark had its job, and no other job ever had its trace id if and only if no sent version of it went elsewhere and nobody else enqueued one that does. |
| `SnifferTheorems.RetargetedTwice` | internal/sniffer/sniffer.go:98-117 | For any two successive versions of a row that go to different destinations, a run in which the row ends up with two jobs. |
| `SnifferTheorems.WatermarkMonotone` | internal/sniffer/state.go:54-66 | The watermark never moves backward. |
| `SnifferTheorems.LateRowIsSkipped` | internal/sniffer/query.go:70-90 | With a lag that reaches the effective bias, for any row that can be rendered there is a run in which it lies at or below the watermark and was never sent. |
| `SnifferTheorems.CompleteIffLagBelowBias` | internal/sniffer/query.go:54-105 | No run skips a row if and only if the configured bias, in nanoseconds, reaches the next whole second after the lag, or nothing can be fetched, or no row can be rendered. |
| `SnifferReplay.NoTraceIff` | internal/sniffer/sniffer.go:118-133 | For any batch in hand and any steps that follow, with no bound on the lag: whether the poll fails before or after its batch is enqueued makes no difference to jobs and watermarks if and only if each new job of the batch is deleted by those steps or is the first that they would have enqueued under its key. |
| `SnifferReplay.FailureLeavesNoTrace` | internal/sniffer/sniffer.go:118-133 | In every run with a lag below the effective bias it makes no difference at all but for the record of deletions, once a batch is enqueued again, as long as no row of the batch was updated and nobody else enqueued its jobs. |
| `SnifferReplay.UpdateLeavesTrace` | internal/sniffer/sniffer.go:118-133 | For any two successive versions of a row that go to different destinations, a run in which it does make a difference: the row is updated after the failure. |
| `HostCap.ProbeVisitsOnce` | internal/hostcap/hostcap.go:102-104 | A round starting anywhere visits every slot exactly once. |
| `HostCap.SlotKeyInjective` | internal/hostcap/hostcap.go:72-74 | Every slot of every host has a lock name of its own. |
| `HostCap.ProbeRound` | internal/hostcap/hostcap.go:102-113 | With a lock table of its own at each probe, a round ends at the first probe that is not refused, with its slot or its error, and finds all taken if and only if every probe was refused. |
| `HostCap.SteadySlotFound` | internal/hostcap/hostcap.go:88-113 | A slot that is free throughout a round keeps the round from failing. |
| `HostCap.FreeSlotFound` | internal/hostcap/hostcap.go:88-113 | With distinct keys, a round is not refused everywhere when fewer than cap keys are held by others at any time during it. |
| `HostCap.AcquireSlot` | internal/hostcap/hostcap.go:95-122 | Ends with the first round that is not refused everywhere, with a slot that was free when probed or the probe's error; the waits before follow the schedule. |
| `HostCap.WaitSchedule` | internal/hostcap/hostcap.go:126-143 | The wait before round k + 1 is min(2^k base, 2 s) for every k from 1 on if and only if base is below 2^62 ns; a base that is not positive counts as 100 ms. |
| `HostCap.JitterWithinQuarter` | internal/hostcap/hostcap.go:146-154 | The jittered wait, an int64 sum, is within a quarter of the wait for every seed if and only if 1.2495 times the wait is below 2^63 ns; a wait that is not positive is left alone. |
| `HostCapSystem.CapHolds` | internal/hostcap/hostcap.go:54-69 | For any hash, with failing unlocks and lost sessions, the sends of live sessions to a host never exceed the number of distinct lock keys of its slots, and so the cap. |
| `HostCapSystem.CapHoldsForAll` | internal/hostcap/hostcap.go:54-69 | As long as no session is lost while sending these are all the sends to the host. |
| `HostCapLosses.DropExceedsCap` | internal/hostcap/hostcap.go:54-69 | For every n, a run that loses n sessions while they send, after which n transfers without a lock go on beside one for each distinct key of the host. |
| `HostCapLosses.OrphansBounded` | internal/hostcap/hostcap.go:54-69 | In every run the transfers to a host that go on without a lock are no more than the sessions lost while sending to it. |
| `HostCapLosses.CapHoldsIff` | internal/hostcap/hostcap.go:54-69 | For any hash and any n: all sends to the host stay within the cap, in every run with at most n losses, if and only if the number of distinct lock keys of its slots plus n does. |
| `HostCapLosses.CapHoldsIffNoneLost` | internal/hostcap/hostcap.go:54-69 | With distinct keys that holds exactly for n = 0. |
| `HostCapLocks.LocksAccounted` | internal/hostcap/hostcap.go:59-69 | In every run, for any hash, a session holds a lock as often as it failed to unlock it since it was last lost, and once more while it sends under it. |
| `HostCapLocks.FailedUnlockLeaks` | internal/hostcap/hostcap.go:64-67 | A run after which nobody is sending and a slot of the host is taken. |
| `HostCapRounds.RoundFailsIff` | internal/hostcap/hostcap.go:102-118 | However other sessions lock and unlock between the probes, a round ends waiting if and only if each slot was taken when it was probed. |
| `HostCapRounds.EveryRoundIsWhole` | internal/hostcap/hostcap.go:101-121 | A round after a wait starts over: it fails exactly when it makes all its probes and finds every slot taken. |
| `HostCapHosts.OnlyOwnHostBlocks` | internal/hostcap/hostcap.go:71-113 | With a hash that keeps slot names apart and no failed unlock for the host, a round to the host ends waiting if and only if at each of its probes another session was sending to that very host in the slot probed, whatever goes on at other hosts. |
| `HostCapHosts.FreeSlotOfHostWins` | internal/hostcap/hostcap.go:71-113 | With fewer than cap slots of the host in use throughout the round, it ends sending. |
| `HostCapRounds.SteadySlotWins` | internal/hostcap/hostcap.go:88-113 | A session for which one slot is obtainable at each of its probes ends its round sending. |
| `HostCapRounds.MissingRound` | internal/hostcap/hostcap.go:102-118 | A run with two slots in which never more than one lock is held and a round fails all the same. |
| `HostCapRounds.LoopAgrees` | internal/hostcap/hostcap.go:102-118 | The probing loop, on a round that meets the tables the session's probes met, ends just as the session's round does: with the same slot, or waiting with all slots taken; the session still probes only while it has made fewer than cap probes. |
| `IdleBackoff.NominalBounds` | internal/backoff/backoff.go:114-133 | After k advances the delay lies between min(base 2^k, maximum) and the maximum. |
| `IdleBackoff.StaysAtMax` | internal/backoff/backoff.go:130-132 | At the maximum the delay stays there, however many advances follow. |
| `IdleBackoff.NamedSchedule` | internal/backoff/backoff.go:114-133 | From 50 ms the delay is 200 ms, 500 ms, 1 s and then doubles, cut at the maximum, for every number of steps. |
| `IdleBackoff.PlainSchedule` | internal/backoff/backoff.go:114-133 | From a base whose doubles meet no named step the delay after k steps is min(base 2^k, maximum). |
| `IdleBackoff.NominalSafe` | internal/backoff/backoff.go:114-133 | The delay is positive and at most the maximum forever if and only if the maximum is below 2^62 ns. |
| `IdleBackoff.DelayWithinQuarter` | internal/backoff/backoff.go:136-143 | The delay slept, an int64 sum, is within a quarter of the nominal one for every draw if and only if 1.25 times that one is at most 2^63 ns; for a nominal one that is not positive it is zero. |
| `IdleBackoff.Idle.constructor` | internal/backoff/backoff.go:37-49 | Starts at the base delay with nobody listed, non-positive settings replaced by their defaults. |
| `IdleBackoff.Idle.Enter` | internal/backoff/backoff.go:54-60 | Draws the delay from the nominal one and enters the state with the goroutine listed and the schedule advanced. |
| `IdleBackoff.Idle.Leave` | internal/backoff/backoff.go:72-79 | Removes the first entry of the channel, if it is still listed, and nothing else. |
| `IdleBackoff.Idle.TakeAll` | internal/backoff/backoff.go:85-90 | Hands over the whole list and restarts the object. |
| `IdleWakeAll.StepIsMethod` | internal/backoff/backoff.go:54-90 | Each step under the mutex, on slices that share and reuse arrays, is the object's Enter, Leave or TakeAll on what the list shows. |
| `IdleWakeAll.NominalOfRun` | internal/backoff/backoff.go:54-90 | In every run the nominal delay is as many steps up the schedule as there were WaitOnce calls since the last WakeAll. |
| `IdleWakeAll.SendIsFirst` | internal/backoff/backoff.go:91-96 | A channel WakeAll is about to send to has never been sent to, so the send is not dropped. |
| `IdleWakeAll.WakeAllReachesEveryone` | internal/backoff/backoff.go:54-97 | In every run, with slices sharing arrays, everyone in WaitOnce is listed, or about to be sent to by a WakeAll in progress, or was sent its token; evictions never change a slice already taken; those inside are exactly the ones that entered and did not leave, and a token that was sent is still in the channel of its sleeper. |
| `CtxReader.DeliversAPrefix` | internal/transfer/ctxreader.go:33-63 | In every run at most one underlying Read is in progress, what the Reads returned is a prefix of the source, and no result is cut short. |
| `CtxReader.EofMeansAll` | internal/transfer/ctxreader.go:52-57 | A caller whose Reads ended with EOF has received the whole source, and exactly as much was read from it. |
| `LocalFs.Copy` | internal/transports/localfs/transport.go:47-54 | On the chunks the reader returns, succeeds exactly when no write and no Read fails before EOF, and then file, digest and counter all hold the whole body. |
| `LocalFs.Disk.Send` | internal/transports/localfs/transport.go:24-70 | The files afterwards, exactly: the whole body at the destination and nothing else changed, or nothing changed but a temporary file that could not be removed. |
| `LocalFsSystem.SendsAreAtomic` | internal/transports/localfs/transport.go:30-69 | Any interleaving of sends, failures and power losses shows at the destinations exactly what the completed renames put there, whole. |
| `LocalFsSystem.OnlyWholeFiles` | internal/transports/localfs/transport.go:30-69 | At every step a destination holds its earlier content or the complete content of one sender to it. |
| `LocalFsSystem.StepIsPut` | internal/transports/localfs/transport.go:65-68 | Only a rename changes what is visible, and it installs the sender's whole content at once. |
| `LocalFsRun.SendIsRun` | internal/transports/localfs/transport.go:24-70 | From any filesystem, a send of the object is a run of a new sender, with the same files at the end, for every way its calls can fail. |
| `LocalFsPower.SurvivesIffSynced` | internal/transports/localfs/transport.go:55-63 | In every reachable state the file of a send under way survives any power failure if and only if it was synced. |
| `ProcessJob.ProcessJob` | internal/worker/process.go:34-86 | Reports success exactly when everything went well and the write was acknowledged; then the destination holds the whole source at its announced size. The outcome written is that of the first failure, and the source is closed exactly once. |
| `ProcessJob.ProcessOne` | internal/worker/runner.go:132-176 | Is the processing function for every attempt: missing factories, a panic in the transfer, in closing or in a hook, and either write committed, committed without reply, or lost. The job gets at most one outcome. |
| `ProcessJob.WriteTwice` | internal/worker/process.go:111-118 | A second outcome for the same lease changes nothing, whatever the two outcomes are. |
| `ProcessJob.StatusAfter` | internal/worker/runner.go:132-176 | For a row whose lease is still the worker's, the exact condition of each status after a processing: dead if and only if a factory is missing, the error is for good or the size wrong, or a retry was written with the budget spent. |
| `ProcessJob.FilesExactly` | internal/worker/process.go:50-85 | The destination is the whole body or as it was, a temporary file is left in exactly two cases, and no other file is touched. |
| `ProcessJob.SucceededMeansDelivered` | internal/worker/process.go:50-85 | A row that becomes succeeded has its whole source at the destination, at its announced size. |
| `ProcessJob.EndToEnd` | internal/worker/process.go:50-85 | With the body read through the context-aware reader, in any run of it, that is exactly the bytes of the source, and as many were counted. |
| `ProcessJob.ReplacedWithoutSuccess` | internal/worker/process.go:50-85 | The destination is replaced and the row not newly succeeded exactly when the new content differs and, after the rename, the size is wrong, the source's Close fails or panics, the outcome write is lost, or the lease was lost. |
| `ProcessJob.MismatchStillPublishes` | internal/worker/process.go:56-61 | A concrete source and environment in which that happens. |

## Left out

- SQL row locks, isolation levels and SKIP LOCKED: each statement or transaction is one atomic step.
- The FTP wire protocol, URL parsing, templates, regular expressions and JSON details: opaque or not modelled.
- The FTP transport and FTP source: their temporary name is fixed per destination, so the claims about concurrent sends hold for the local filesystem only.
- Liveness of the FTP pool: a transfer with both ends on one host may wait for its own connection.
- The values of the FNV slot hash and of the jitter seed: any starting slot and any seed are allowed.
- Floating-point rounding: jitter is computed on exact reals.
- What Go makes of a float that does not fit an int64 depends on the platform: any value is allowed, and the run that shows overtaking takes that of amd64.
- A panic inside the source's Read: it strikes in the reader's own goroutine, where nothing recovers it, and ends the process. For the lease protocol that is a crash.
- The payload and created_at columns and the details of events.
- The limit of 65535 parameters of one statement.
- Deletion of source rows, and a watermark reset by hand.
- The loss of a rename in a power failure: the directory entry counts as durable once renamed.
- The contents of the digest: the model says which bytes are hashed, not what SHA-256 makes of them.
- Metrics, health endpoints, hooks and log output; of the result labels only what the worker's methods return.
- The command line, configuration, migrations runner, Helm charts and scripts: they would only add easy members.
- CtxReader.DeliversAPrefix: the reader is a step system on values rather than a class, because its goroutine writes the fields between the caller's statements.
- LocalFsSystem.SendsAreAtomic: the filesystem under concurrent sends is a step system on values; `LocalFs.Disk` is the single send in place, and `SendIsRun` ties the two.
- IdleWakeAll.WakeAllReachesEveryone: arrays shared by slices are sequences addressed by number, so that two slices may share one.
