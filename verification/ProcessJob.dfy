/** One leased job from opening the source to its outcome write. */
module ProcessJob {
  import opened Common
  import opened ByteStream
  import opened JobTable
  import opened LocalFs
  import opened Store
  import CtxReader

  /** What opening the source yields. A size below zero is an unknown size; the chunks are what the
      context-aware reader makes of the body. */
  datatype Source = OpenFails(e: JobError) | Opened(size: int, chunks: seq<Chunk>, closeFails: bool)

  /** What becomes of an outcome write: written; written, with the reply lost; or not written. */
  datatype Fate = Written | ReplyLost | NotWritten

  /** Where a panic strikes: in opening or sending, leaving perhaps a temporary file; in closing the source;
      or in a hook after the outcome was written. */
  datatype Panic = NoPanic | InTransfer(left: Option<seq<Byte>>) | InClose | InHook

  /** Everything one processing meets. `factories` says whether a source and a transport exist for the job's
      protocols; `panicFate` is that of the write after a panic. */
  datatype Attempt = Attempt(factories: bool, source: Source, tmp: string, env: SendEnv, delayMs: int,
                             panic: Panic, fate: Fate, panicFate: Fate)

  /** The job table and the files. */
  datatype World = World(db: Db, files: map<string, seq<Byte>>)

  function AsJobError(e: SendError): JobError {
    match e
    case SendRetryable => Retryable
    case SendPermanent => PermanentErr
  }

  predicate Published(source: Source, env: SendEnv) {
    source.Opened? && SendSucceeds(source.chunks, env)
  }

  predicate SizeWrong(source: Source)
    requires source.Opened?
  {
    source.size >= 0 && |Stream(source.chunks)| != source.size
  }

  /** Why a job does not succeed, decided by the first thing that goes wrong. */
  function Failure(source: Source, env: SendEnv): Option<JobError> {
    if source.OpenFails? then Some(source.e)
    else if !SendSucceeds(source.chunks, env) then Some(AsJobError(SendFailure(env)))
    else if SizeWrong(source) then Some(PermanentErr)
    else if source.closeFails then Some(Retryable)
    else None
  }

  function OutcomeFor(failure: Option<JobError>, delayMs: int): Outcome {
    match failure
    case None => Success
    case Some(e) => OutcomeOf(e, delayMs)
  }

  function Write(db: Db, id: int, name: string, job: Row, o: Outcome, fate: Fate): Db {
    if fate.NotWritten? then db else WriteOutcome(db, id, name, job, o)
  }

  /** The source is closed before the outcome is written only once everything else went well. */
  predicate ClosesFirst(source: Source, env: SendEnv) {
    Published(source, env) && !SizeWrong(source)
  }

  /** The destination holds the source, whole, and as long as the source said. */
  predicate Delivered(files: map<string, seq<Byte>>, dst: string, source: Source) {
    && source.Opened? && EndsWell(source.chunks)
    && dst in files && files[dst] == Stream(source.chunks)
    && (source.size >= 0 ==> |files[dst]| == source.size)
  }

  function FilesAfter(files: map<string, seq<Byte>>, dst: string, tmp: string, source: Source, env: SendEnv)
    : map<string, seq<Byte>>
  {
    if source.OpenFails? then files else SendFiles(files, dst, tmp, source.chunks, env)
  }

  method Settle(store: JobStore, id: int, name: string, job: Row, e: JobError, delayMs: int, fate: Fate)
    returns (result: string)
    modifies store`jobs, store`events
    ensures store.Value() == Write(old(store.Value()), id, name, job, OutcomeOf(e, delayMs), fate)
    ensures result == if fate.Written? then LabelOf(e, job, Guard(old(store.Value()), id, name)) else ""
  {
    if fate.NotWritten? {
      return "";
    }
    result := store.ClassifyAndWrite(id, name, job, e, delayMs);
    if fate.ReplyLost? {
      return "";
    }
  }

  /** `closes` counts the calls of the body's Close, the last of which may panic. */
  method ProcessJob(store: JobStore, disk: Disk, id: int, name: string, job: Row, source: Source, tmp: string,
                    env: SendEnv, delayMs: int, fate: Fate, closePanics: bool)
    returns (result: string, closes: nat, panicked: bool)
    requires tmp !in disk.files
    modifies store`jobs, store`events, disk`files
    ensures result == "succeeded" <==> Failure(source, env).None? && fate.Written? && !panicked
    ensures result == "succeeded" ==> Delivered(disk.files, job.dst, source)
    ensures store.Value() == if closePanics && ClosesFirst(source, env) then old(store.Value())
              else Write(old(store.Value()), id, name, job, OutcomeFor(Failure(source, env), delayMs), fate)
    ensures disk.files == FilesAfter(old(disk.files), job.dst, tmp, source, env)
    ensures closes == if source.Opened? then 1 else 0
    ensures panicked <==> closePanics && source.Opened?
  {
    closes, panicked := 0, false;
    if source.OpenFails? {
      result := Settle(store, id, name, job, source.e, delayMs, fate);
      return;
    }
    var sent, counted := disk.Send(job.dst, tmp, source.chunks, env);
    if sent.Failed? {
      result := Settle(store, id, name, job, AsJobError(sent.e), delayMs, fate);
      closes, panicked := closes + 1, closePanics;
      return;
    }
    var written := sent.written;
    var sizeMatches := if source.size >= 0 then written == source.size else counted == written;
    if !sizeMatches {
      result := Settle(store, id, name, job, PermanentErr, delayMs, fate);
      closes, panicked := closes + 1, closePanics;
      return;
    }
    closes := closes + 1;
    if closePanics {
      return "", closes, true;
    }
    if source.closeFails {
      result := Settle(store, id, name, job, Retryable, delayMs, fate);
      return;
    }
    if !fate.NotWritten? {
      store.WriteSuccess(id, name, job);
    }
    result := if fate.Written? then "succeeded" else "";
  }

  // ---- one processing as a function -----------------------------------------------------------

  /** The outcome the job's own write is for, if processing gets that far. */
  function FirstOutcome(a: Attempt): Option<Outcome> {
    if !a.factories then Some(Permanent)
    else if a.panic.InTransfer? || (a.panic.InClose? && ClosesFirst(a.source, a.env)) then None
    else Some(OutcomeFor(Failure(a.source, a.env), a.delayMs))
  }

  predicate Panics(a: Attempt) {
    a.panic.InHook? || (a.factories && (a.panic.InTransfer? || (a.panic.InClose? && a.source.Opened?)))
  }

  /** The one outcome the job gets: the first write that reaches the database. */
  function Settled(a: Attempt): Option<Outcome> {
    if FirstOutcome(a).Some? && !a.fate.NotWritten? then FirstOutcome(a)
    else if Panics(a) && !a.panicFate.NotWritten? then Some(Retry(a.delayMs))
    else None
  }

  function Process(w: World, id: int, name: string, job: Row, a: Attempt): World {
    World(if Settled(a).None? then w.db else WriteOutcome(w.db, id, name, job, Settled(a).value),
          if !a.factories then w.files
          else if a.panic.InTransfer? then
            (if a.panic.left.Some? then w.files[a.tmp := a.panic.left.value] else w.files)
          else FilesAfter(w.files, job.dst, a.tmp, a.source, a.env))
  }

  method ProcessOne(store: JobStore, disk: Disk, id: int, name: string, job: Row, a: Attempt)
    requires a.tmp !in disk.files
    modifies store`jobs, store`events, disk`files
    ensures World(store.Value(), disk.files) == Process(old(World(store.Value(), disk.files)), id, name, job, a)
  {
    ghost var was := store.Value();
    var panicked := a.panic.InHook?;
    if !a.factories {
      if !a.fate.NotWritten? {
        var _ := store.WriteTerminalWithAttempts(id, name, Dead, EvDead, job.attempts + 1);
      }
    } else if a.panic.InTransfer? {
      if a.panic.left.Some? {
        disk.files := disk.files[a.tmp := a.panic.left.value];
      }
      panicked := true;
    } else {
      var _, _, struck := ProcessJob(store, disk, id, name, job, a.source, a.tmp, a.env, a.delayMs, a.fate,
                                     a.panic.InClose?);
      panicked := panicked || struck;
    }
    if panicked && !a.panicFate.NotWritten? {
      if FirstOutcome(a).Some? {
        WriteTwice(was, id, name, job, FirstOutcome(a).value, Retry(a.delayMs));
      }
      var _ := store.WriteRetryOrDead(id, name, job, a.delayMs);
    }
  }

  /** Writing a second outcome for the same lease changes nothing, whatever the two outcomes are. */
  lemma WriteTwice(db: Db, id: int, name: string, job: Row, first: Outcome, second: Outcome)
    ensures WriteOutcome(WriteOutcome(db, id, name, job, first), id, name, job, second)
            == WriteOutcome(db, id, name, job, first)
  {
  }

  // ---- what a processing means for the destination -----------------------------------------------

  predicate NewlySucceeded(was: Db, now: Db, id: int) {
    && id in now.jobs && now.jobs[id].status.Succeeded?
    && !(id in was.jobs && was.jobs[id].status.Succeeded?)
  }

  predicate Replaced(was: map<string, seq<Byte>>, now: map<string, seq<Byte>>, dst: string) {
    dst in now && (dst !in was || now[dst] != was[dst])
  }

  /** A row that becomes succeeded has its whole source at the destination. */
  lemma SucceededMeansDelivered(w: World, id: int, name: string, job: Row, a: Attempt)
    requires NewlySucceeded(w.db, Process(w, id, name, job, a).db, id)
    ensures Delivered(Process(w, id, name, job, a).files, job.dst, a.source)
  {
    CopiedAll(a.source.chunks, a.env.writeFailAt, 0);
    assert a.source.chunks[0..] == a.source.chunks;
  }

  /** The files after a processing: the destination is the whole body or as it was, a temporary file is left in
      exactly two cases, and nothing else is touched. */
  lemma FilesExactly(w: World, id: int, name: string, job: Row, a: Attempt)
    requires a.tmp !in w.files && a.tmp != job.dst
    ensures var files := Process(w, id, name, job, a).files;
            && (forall p | p != job.dst && p != a.tmp :: p in files <==> p in w.files)
            && (forall p | p != job.dst && p != a.tmp && p in files :: files[p] == w.files[p])
            && (if a.factories && !a.panic.InTransfer? && Published(a.source, a.env)
                then job.dst in files && files[job.dst] == Stream(a.source.chunks)
                else (job.dst in files <==> job.dst in w.files)
                     && (job.dst in files ==> files[job.dst] == w.files[job.dst]))
            && (a.tmp in files <==>
                && a.factories
                && if a.panic.InTransfer? then a.panic.left.Some?
                   else && a.source.Opened? && !SendSucceeds(a.source.chunks, a.env)
                        && !a.env.ctxDone && a.env.createFails.None? && a.env.removeFails)
            && (a.tmp in files && a.panic.InTransfer? ==> files[a.tmp] == a.panic.left.value)
  {
  }

  // ---- what a processing means for the row -------------------------------------------------------

  /** The job's own outcome write reaches the database: no panic comes before it. */
  predicate OwnWrite(a: Attempt) {
    && !a.fate.NotWritten?
    && (a.factories ==> !a.panic.InTransfer? && !(a.panic.InClose? && ClosesFirst(a.source, a.env)))
  }

  /** That of a recovered panic does, and it is the first. */
  predicate PanicWrite(a: Attempt) {
    && !OwnWrite(a) && !a.panicFate.NotWritten?
    && (a.panic.InHook? || (a.factories && (a.panic.InTransfer? || (a.panic.InClose? && a.source.Opened?))))
  }

  predicate AllWell(a: Attempt) {
    Published(a.source, a.env) && !SizeWrong(a.source) && !a.source.closeFails
  }

  /** The error is for good: in opening the source, in creating the file, or in the size. */
  predicate ForGood(a: Attempt) {
    || (a.source.OpenFails? && a.source.e == PermanentErr)
    || (a.source.Opened? && !a.env.ctxDone && a.env.createFails == Some(SendPermanent))
    || (Published(a.source, a.env) && SizeWrong(a.source))
  }

  /** A failure that is worth another attempt was written. */
  predicate Retried(a: Attempt) {
    PanicWrite(a) || (OwnWrite(a) && a.factories && !AllWell(a) && !ForGood(a) && a.source != OpenFails(Skippable))
  }

  /** What becomes of a row whose lease is still the worker's. */
  lemma StatusAfter(w: World, id: int, name: string, job: Row, a: Attempt)
    requires Guard(w.db, id, name)
    ensures id in Process(w, id, name, job, a).db.jobs
    ensures var row := Process(w, id, name, job, a).db.jobs[id];
            var spent := job.attempts + 1 >= job.maxAttempts;
            && (row.status == Succeeded <==> OwnWrite(a) && a.factories && AllWell(a))
            && (row.status == Skipped <==> OwnWrite(a) && a.factories && a.source == OpenFails(Skippable))
            && (row.status == Dead <==> (OwnWrite(a) && (!a.factories || ForGood(a))) || (Retried(a) && spent))
            && (row.status == Pending <==> Retried(a) && !spent)
            && (row.status == Leased <==> !OwnWrite(a) && !PanicWrite(a))
            && (row.status == Dead || row.status == Pending ==> row.attempts == job.attempts + 1)
            && (row.status == Pending ==> row.nextRunAt == w.db.now + a.delayMs * 1000)
  {
  }

  /** From the source's bytes to the destination's: with the body read through the context-aware reader, in
      any run of it, a row that becomes succeeded has exactly the source's bytes at the destination, and the
      worker counted as many. */
  lemma EndToEnd(stream: seq<Byte>, r0: CtxReader.Sys, ls: seq<CtxReader.Label>, w: World, id: int, name: string,
                 job: Row, a: Attempt)
    requires CtxReader.Init(r0) && CtxReader.Run(stream, r0, ls)
    requires a.source.Opened? && a.source.chunks == CtxReader.Exec(stream, r0, ls).chunks
    requires NewlySucceeded(w.db, Process(w, id, name, job, a).db, id)
    ensures var files := Process(w, id, name, job, a).files;
            && job.dst in files && files[job.dst] == stream
            && CtxReader.Exec(stream, r0, ls).pos == |stream|
            && (a.source.size >= 0 ==> |stream| == a.source.size)
  {
    SucceededMeansDelivered(w, id, name, job, a);
    CtxReader.EofMeansAll(stream, r0, ls);
  }

  /** The rename comes before the size check, before the source is closed and before the outcome is written.
      So the destination can be replaced while the row does not become succeeded; it is exactly when the new
      content differs and one of five things went wrong after the rename. */
  lemma ReplacedWithoutSuccess(w: World, id: int, name: string, job: Row, a: Attempt)
    requires a.tmp !in w.files && IsTemp(a.tmp) && !IsTemp(job.dst)
    ensures var w' := Process(w, id, name, job, a);
            Replaced(w.files, w'.files, job.dst) && !NewlySucceeded(w.db, w'.db, id) <==>
            && a.factories && !a.panic.InTransfer? && Published(a.source, a.env)
            && (job.dst !in w.files || w.files[job.dst] != Stream(a.source.chunks))
            && (|| SizeWrong(a.source)                    // the announced size
                || a.source.closeFails || a.panic.InClose?  // the source's Close fails or panics
                || a.fate.NotWritten?                       // the outcome write fails
                || !Guard(w.db, id, name))                  // the lease was lost
  {
  }

  lemma ATempName() returns (tmp: string)
    ensures tmp == "/.imgsync-1.tmp" && IsTemp(tmp)
  {
    tmp := "/.imgsync-1.tmp";
    assert tmp[1..] == ".imgsync-1.tmp" && '/' !in tmp[1..];
    assert tmp[1..][|tmp[1..]| - 4..] == ".tmp";
  }

  /** A five-byte announcement with an empty body: the job dies, and its destination is an empty file. */
  lemma MismatchStillPublishes(job: Row) returns (w: World, a: Attempt)
    ensures a.tmp !in w.files && IsTemp(a.tmp) && Guard(w.db, 1, "w0") && a.fate.Written? && a.panic.NoPanic?
    ensures Replaced(w.files, Process(w, 1, "w0", job, a).files, job.dst)
    ensures Process(w, 1, "w0", job, a).db == WriteOutcome(w.db, 1, "w0", job, Permanent)
  {
    var source := Opened(5, [Chunk([], Eof)], false);
    var env := SendEnv(false, None, None, false, false, false, false);
    assert CopySucceeds(source.chunks, env.writeFailAt, 0);
    var tmp := ATempName();
    a := Attempt(true, source, tmp, env, 0, NoPanic, Written, Written);
    w := World(Db(map[1 := job.(status := Leased, lockedBy := Some("w0"))], [], 2, 0), map[]);
  }
}
