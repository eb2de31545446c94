/**
 * The context-aware reader: each Read runs the underlying Read in a goroutine of its own and races it
 * against cancellation. The caller, the goroutines and the cancellation interleave freely; the caller makes
 * one Read at a time.
 */
module CtxReader {
  import opened Common
  import opened ByteStream

  datatype ReadResult = ReadResult(n: nat, err: ReadErr)

  datatype Caller = Out | Waiting(len: nat)

  /** `running` are the underlying Reads in progress, by goroutine, with the buffer length each was given;
      `pending` is the channel of the field of that name, named after the goroutine it was made for, and
      `results` what the channels hold. `pos` is how much of the source was consumed, `chunks` what the
      caller's Reads returned. */
  datatype Sys = Sys(ctxDone: bool, pos: nat, pending: Option<nat>, running: map<nat, nat>,
                     results: map<nat, ReadResult>, scratch: seq<Byte>, caller: Caller,
                     chunks: seq<Chunk>, ended: bool, spawned: nat)

  datatype Label =
    | Cancel
    | Call(len: nat)
    | ReadReturns(r: nat, n: nat, err: ReadErr)
    | Receive
    | Abandon

  /** io.Reader: at most as many bytes as asked for, and EOF only at the end of the stream. A copying caller
      makes no further Read once it was given an error. */
  predicate Enabled(stream: seq<Byte>, s: Sys, l: Label) {
    match l
    case Cancel => true
    case Call(_) => s.caller.Out? && !s.ended
    case ReadReturns(r, n, err) =>
      r in s.running && n <= s.running[r] && s.pos + n <= |stream| && (err == Eof ==> s.pos + n == |stream|)
      && s.pending.Some? && s.pending.value !in s.results && s.running[r] <= |s.scratch|
    case Receive => s.caller.Waiting? && s.pending.Some? && s.pending.value in s.results
                    && s.results[s.pending.value].n <= |s.scratch|
    case Abandon => s.caller.Waiting? && s.ctxDone
  }

  /** The entry of Read: refuse when cancelled; start a Read unless one is still pending. */
  function StepCall(s: Sys, len: nat): Sys {
    if s.ctxDone then s.(chunks := s.chunks + [Chunk([], Fault)])
    else if s.pending.Some? then s.(caller := Waiting(len))
    else
      s.(scratch := if |s.scratch| < len then seq(len, _ => 0 as Byte) else s.scratch,
         pending := Some(s.spawned), running := s.running[s.spawned := len], spawned := s.spawned + 1,
         caller := Waiting(len))
  }

  function Next(stream: seq<Byte>, s: Sys, l: Label): Sys
    requires Enabled(stream, s, l)
  {
    match l
    case Cancel => s.(ctxDone := true)
    case Call(len) => StepCall(s, len)
    case ReadReturns(r, n, err) =>
      s.(scratch := stream[s.pos..s.pos + n] + s.scratch[n..], pos := s.pos + n, running := s.running - {r},
         results := s.results[s.pending.value := ReadResult(n, err)])
    case Receive =>
      var res := s.results[s.pending.value];
      var Waiting(len) := s.caller;
      s.(pending := None, chunks := s.chunks + [Chunk(s.scratch[..Min(len, res.n)], res.err)], caller := Out,
         ended := res.err != NoErr)
    case Abandon => s.(caller := Out, chunks := s.chunks + [Chunk([], Fault)])
  }

  predicate Init(s: Sys) {
    s == Sys(s.ctxDone, 0, None, map[], map[], [], Out, [], false, 0)
  }

  ghost predicate Run(stream: seq<Byte>, s: Sys, ls: seq<Label>)
    decreases |ls|
  {
    |ls| > 0 ==> Enabled(stream, s, ls[0]) && Run(stream, Next(stream, s, ls[0]), ls[1..])
  }

  ghost function Exec(stream: seq<Byte>, s: Sys, ls: seq<Label>): Sys
    requires Run(stream, s, ls)
    decreases |ls|
  {
    if |ls| == 0 then s else Exec(stream, Next(stream, s, ls[0]), ls[1..])
  }

  /** A Read is in progress only for the pending channel, and a pending channel without a waiting caller means
      cancellation. */
  ghost predicate OneRead(s: Sys) {
    && (forall r | r in s.running :: s.pending == Some(r) && r !in s.results && s.running[r] <= |s.scratch|)
    && (forall r | r in s.results :: r < s.spawned)
    && (forall r | r in s.running :: r < s.spawned)
    && (s.caller.Waiting? ==> s.pending.Some?)
    && (s.pending.Some? && s.caller.Out? ==> s.ctxDone)
    && (s.ended ==> s.pending.None? && s.caller.Out?)
  }

  /** What was consumed is what was returned plus the result not yet received. */
  ghost predicate Accounted(stream: seq<Byte>, s: Sys) {
    && s.pos <= |stream|
    && (match s.pending
        case None => Stream(s.chunks) == stream[..s.pos]
        case Some(r) =>
          if r in s.results then
            var n := s.results[r].n;
            && n <= s.pos && n <= |s.scratch|
            && Stream(s.chunks) == stream[..s.pos - n] && s.scratch[..n] == stream[s.pos - n..s.pos]
            && (s.caller.Waiting? ==> n <= s.caller.len)
            && (s.results[r].err == Eof ==> s.pos == |stream|)
          else
            && Stream(s.chunks) == stream[..s.pos]
            && r in s.running && (s.caller.Waiting? ==> s.running[r] == s.caller.len))
  }

  /** After an error there is no further Read but refused ones; EOF was reported with the whole source. */
  ghost predicate Ended(stream: seq<Byte>, s: Sys) {
    && (s.caller.Waiting? ==> Open(s.chunks))
    && (!Open(s.chunks) ==> s.ended || s.ctxDone)
    && (EndsWell(s.chunks) ==> Stream(s.chunks) == stream && s.pos == |stream|)
  }

  ghost predicate Inv(stream: seq<Byte>, s: Sys) {
    OneRead(s) && Accounted(stream, s) && Ended(stream, s)
  }

  lemma ReceiveKeepsInv(stream: seq<Byte>, s: Sys)
    requires Inv(stream, s) && Enabled(stream, s, Receive)
    ensures Inv(stream, Next(stream, s, Receive))
  {
    var res := s.results[s.pending.value];
    StreamAppend(s.chunks, Chunk(s.scratch[..Min(s.caller.len, res.n)], res.err));
    assert stream[..s.pos - res.n] + stream[s.pos - res.n..s.pos] == stream[..s.pos];
    assert s.pos == |stream| ==> stream[..s.pos] == stream;
  }

  lemma ReadReturnsKeepsInv(stream: seq<Byte>, s: Sys, l: Label)
    requires Inv(stream, s) && Enabled(stream, s, l) && l.ReadReturns?
    ensures Inv(stream, Next(stream, s, l))
  {
    assert (stream[s.pos..s.pos + l.n] + s.scratch[l.n..])[..l.n] == stream[s.pos..s.pos + l.n];
  }

  lemma CallKeepsInv(stream: seq<Byte>, s: Sys, l: Label)
    requires Inv(stream, s) && Enabled(stream, s, l) && !l.Receive? && !l.ReadReturns?
    ensures Inv(stream, Next(stream, s, l))
  {
    StreamAppend(s.chunks, Chunk([], Fault));
  }

  lemma StepKeepsInv(stream: seq<Byte>, s: Sys, l: Label)
    requires Inv(stream, s) && Enabled(stream, s, l)
    ensures Inv(stream, Next(stream, s, l))
  {
    match l {
      case Receive => ReceiveKeepsInv(stream, s);
      case ReadReturns(_, _, _) => ReadReturnsKeepsInv(stream, s, l);
      case _ => CallKeepsInv(stream, s, l);
    }
  }

  lemma {:induction false} RunKeepsInv(stream: seq<Byte>, s: Sys, ls: seq<Label>)
    requires Inv(stream, s) && Run(stream, s, ls)
    ensures Inv(stream, Exec(stream, s, ls))
    decreases |ls|
  {
    if |ls| == 0 {
    } else {
      StepKeepsInv(stream, s, ls[0]);
      RunKeepsInv(stream, Next(stream, s, ls[0]), ls[1..]);
    }
  }

  /** In every run: at most one underlying Read is in progress, it can always hand over its result, and what
      the caller has received is a prefix of the source. A Read that is let in never meets a pending
      channel, so no result is cut to a shorter buffer than it was read for. */
  lemma DeliversAPrefix(stream: seq<Byte>, s0: Sys, ls: seq<Label>)
    requires Init(s0) && Run(stream, s0, ls)
    ensures var s := Exec(stream, s0, ls);
            && |s.running.Keys| <= 1
            && (forall r | r in s.running :: s.pending == Some(r) && r !in s.results && s.running[r] <= |s.scratch|)
            && Stream(s.chunks) <= stream && s.pos <= |stream|
            && (s.caller.Out? && !s.ctxDone ==> s.pending.None? && Stream(s.chunks) == stream[..s.pos])
            && (Enabled(stream, s, Receive) ==> s.results[s.pending.value].n <= s.caller.len)
  {
    RunKeepsInv(stream, s0, ls);
    var s := Exec(stream, s0, ls);
    if r :| r in s.running {
      assert s.running.Keys == {r};
    } else {
      assert s.running.Keys == {};
    }
  }

  /** A caller that was told EOF has received the whole source, and as much was read from it. */
  lemma EofMeansAll(stream: seq<Byte>, s0: Sys, ls: seq<Label>)
    requires Init(s0) && Run(stream, s0, ls) && EndsWell(Exec(stream, s0, ls).chunks)
    ensures Stream(Exec(stream, s0, ls).chunks) == stream && Exec(stream, s0, ls).pos == |stream|
  {
    RunKeepsInv(stream, s0, ls);
  }
}
