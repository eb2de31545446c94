/** The local filesystem transport: a temporary file next to the destination, then an atomic rename. */
module LocalFs {
  import opened Common
  import opened ByteStream

  function Base(path: string): string
    decreases |path|
  {
    if '/' in path then Base(path[1..]) else path
  }

  /** The names CreateTemp draws from. */
  predicate IsTemp(path: string) {
    var base := Base(path);
    ".imgsync-" <= base && |base| >= 13 && base[|base| - 4..] == ".tmp"
  }

  /** From chunk i on, no write fails before the body ends with EOF. `failAt` is the chunk whose write fails. */
  predicate CopySucceeds(chunks: seq<Chunk>, failAt: Option<nat>, i: nat)
    requires i <= |chunks|
    decreases |chunks| - i
  {
    i < |chunks| && !(|chunks[i].data| > 0 && failAt == Some(i))
    && (chunks[i].err == Eof || (chunks[i].err == NoErr && CopySucceeds(chunks, failAt, i + 1)))
  }

  /** The bytes a copy from chunk i on writes, whether or not it succeeds. */
  function Copied(chunks: seq<Chunk>, failAt: Option<nat>, i: nat): seq<Byte>
    requires i <= |chunks|
    decreases |chunks| - i
  {
    if i == |chunks| || (|chunks[i].data| > 0 && failAt == Some(i)) then []
    else if chunks[i].err != NoErr then chunks[i].data
    else chunks[i].data + Copied(chunks, failAt, i + 1)
  }

  /** A copy that succeeds has written the whole body, which ended with EOF. */
  lemma {:induction false} CopiedAll(chunks: seq<Chunk>, failAt: Option<nat>, i: nat)
    requires i <= |chunks| && CopySucceeds(chunks, failAt, i)
    ensures Copied(chunks, failAt, i) == Stream(chunks[i..]) && EndsWell(chunks[i..])
    decreases |chunks| - i
  {
    assert chunks[i..][0] == chunks[i] && chunks[i..][1..] == chunks[i + 1..];
    if chunks[i].err == NoErr {
      CopiedAll(chunks, failAt, i + 1);
    }
  }

  /** io.Copy into the file and the digest together, with the worker's byte counter on the reading side. The
      chunks are what the reader returns; cancellation is one of its errors. */
  method Copy(chunks: seq<Chunk>, failAt: Option<nat>)
    returns (ok: bool, copied: seq<Byte>, digested: seq<Byte>, counted: nat)
    ensures ok <==> CopySucceeds(chunks, failAt, 0)
    ensures ok ==> EndsWell(chunks) && copied == Stream(chunks) && counted == |copied|
    ensures copied == digested == Copied(chunks, failAt, 0)
  {
    copied, digested, counted := [], [], 0;
    var i := 0;
    while i < |chunks|
      invariant i <= |chunks|
      invariant copied + Stream(chunks[i..]) == Stream(chunks)
      invariant copied + Copied(chunks, failAt, i) == Copied(chunks, failAt, 0)
      invariant EndsWell(chunks) <==> EndsWell(chunks[i..])
      invariant counted == |copied| && digested == copied
      invariant CopySucceeds(chunks, failAt, 0) <==> CopySucceeds(chunks, failAt, i)
    {
      assert chunks[i..][0] == chunks[i] && chunks[i..][1..] == chunks[i + 1..];
      var c := chunks[i];
      counted := counted + |c.data|;
      if |c.data| > 0 && failAt == Some(i) {
        return false, copied, digested, counted;
      }
      ghost var before := copied;
      copied := copied + c.data;
      digested := digested + c.data;
      if c.err == Eof {
        return true, copied, digested, counted;
      }
      if c.err == Fault {
        return false, copied, digested, counted;
      }
      Assoc(before, c.data, Stream(chunks[i + 1..]));
      Assoc(before, c.data, Copied(chunks, failAt, i + 1));
      i := i + 1;
    }
    return false, copied, digested, counted;
  }

  datatype SendError = SendRetryable | SendPermanent

  datatype SendResult = Sent(written: nat, digested: seq<Byte>) | Failed(e: SendError)

  /** The outcomes of the system calls of one Send; a missing directory makes the creation fail for good. */
  datatype SendEnv = SendEnv(ctxDone: bool, createFails: Option<SendError>, writeFailAt: Option<nat>,
                             syncFails: bool, closeFails: bool, renameFails: bool, removeFails: bool)

  predicate SendSucceeds(chunks: seq<Chunk>, env: SendEnv) {
    !env.ctxDone && env.createFails.None? && CopySucceeds(chunks, env.writeFailAt, 0)
    && !env.syncFails && !env.closeFails && !env.renameFails
  }

  /** The error of a Send that fails. */
  function SendFailure(env: SendEnv): SendError {
    if !env.ctxDone && env.createFails.Some? then env.createFails.value else SendRetryable
  }

  /** What a Send makes of the files: the whole body at the destination, or nothing but perhaps a temporary
      file that could not be removed. */
  function SendFiles(files: map<string, seq<Byte>>, dst: string, tmp: string, chunks: seq<Chunk>, env: SendEnv)
    : map<string, seq<Byte>>
  {
    if SendSucceeds(chunks, env) then files[dst := Stream(chunks)]
    else if !env.ctxDone && env.createFails.None? && env.removeFails
    then files[tmp := Copied(chunks, env.writeFailAt, 0)]
    else files
  }

  class Disk {
    var files: map<string, seq<Byte>>

    constructor (files: map<string, seq<Byte>>)
      ensures this.files == files
    {
      this.files := files;
    }

    /** CreateTemp gives a name not in use. Any failure after the creation removes the temporary file. */
    method Send(dst: string, tmp: string, chunks: seq<Chunk>, env: SendEnv) returns (r: SendResult, counted: nat)
      requires tmp !in files
      modifies this`files
      ensures files == SendFiles(old(files), dst, tmp, chunks, env)
      ensures r.Sent? <==> SendSucceeds(chunks, env)
      ensures r.Sent? ==> EndsWell(chunks) && r.written == counted == |Stream(chunks)| && r.digested == Stream(chunks)
      ensures r.Failed? ==> r.e == SendFailure(env)
    {
      counted := 0;
      if env.ctxDone {
        return Failed(SendRetryable), counted;
      }
      if env.createFails.Some? {
        return Failed(env.createFails.value), counted;
      }
      files := files[tmp := []];
      var ok, copied, digested;
      ok, copied, digested, counted := Copy(chunks, env.writeFailAt);
      files := files[tmp := copied];
      if !ok || env.syncFails || env.closeFails || env.renameFails {
        Cleanup(tmp, env.removeFails);
        assert !env.removeFails ==> files == old(files);
        return Failed(SendRetryable), counted;
      }
      Rename(tmp, dst);
      assert files == old(files)[dst := copied];
      return Sent(|copied|, digested), counted;
    }

    method Cleanup(tmp: string, fails: bool)
      modifies this`files
      ensures files == if fails then old(files) else old(files) - {tmp}
    {
      if !fails {
        files := files - {tmp};
      }
    }

    method Rename(from: string, to: string)
      requires from in files
      modifies this`files
      ensures files == (old(files) - {from})[to := old(files)[from]]
    {
      var content := files[from];
      files := files - {from};
      files := files[to := content];
    }
  }
}
