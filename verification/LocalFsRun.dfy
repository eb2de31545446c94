/** One send of the transport object is a run of the step system, on any filesystem. */
module LocalFsRun {
  import opened Common
  import opened ByteStream
  import opened LocalFs
  import opened LocalFsSystem

  /** The files as the object has them, temporary ones included. */
  function Files(s: Fs): map<string, seq<Byte>> {
    map p | p in s.names && s.names[p] in s.data :: s.data[s.names[p]]
  }

  lemma Then(s: Fs, l: Label, ls: seq<Label>)
    requires Enabled(s, l) && Run(Next(s, l), ls)
    ensures Run(s, [l] + ls) && Exec(s, [l] + ls) == Exec(Next(s, l), ls)
  {
    assert ([l] + ls)[1..] == ls;
  }

  lemma {:induction false} RunAppend(s: Fs, a: seq<Label>, b: seq<Label>)
    requires Run(s, a) && Run(Exec(s, a), b)
    ensures Run(s, a + b) && Exec(s, a + b) == Exec(Exec(s, a), b)
    decreases |a|
  {
    if |a| == 0 {
      assert a + b == b;
    } else {
      RunAppend(Next(s, a[0]), a[1..], b);
      assert a + b == [a[0]] + (a[1..] + b);
      Then(s, a[0], a[1..] + b);
    }
  }

  /** Sender k, further in its phase, after writing the bytes. */
  ghost predicate Wrote(s: Fs, s': Fs, k: nat, bytes: seq<Byte>, ok: bool) {
    && Live(s, k) && Live(s', k) && s.senders[k].phase.ino in s.data
    && var p, p' := s.senders[k].phase, s'.senders[k].phase;
       && s' == s.(data := s.data[p.ino := s.data[p.ino] + bytes], senders := At(s, k, p'))
       && p'.tmp == p.tmp && p'.ino == p.ino && (ok <==> p'.Complete?)
       && (p'.Copying? || p'.Broken? || p'.Complete?)
  }

  /** The copy loop, one step per chunk. */
  lemma {:induction false} CopyRun(s: Fs, k: nat, failAt: Option<nat>) returns (ls: seq<Label>)
    requires k in s.senders && s.senders[k].phase.Copying? && s.senders[k].phase.i <= |s.senders[k].chunks|
    requires s.senders[k].phase.ino in s.data && s.senders[k].phase.ino !in s.durable
    ensures Run(s, ls)
    ensures var chunks, i := s.senders[k].chunks, s.senders[k].phase.i;
            Wrote(s, Exec(s, ls), k, Copied(chunks, failAt, i), CopySucceeds(chunks, failAt, i))
    decreases |s.senders[k].chunks| - s.senders[k].phase.i
  {
    var chunks, p := s.senders[k].chunks, s.senders[k].phase;
    assert s.durable - {p.ino} == s.durable && s.data[p.ino] + [] == s.data[p.ino];
    if p.i == |chunks| {
      ls := [];
      assert s.senders == At(s, k, p) && s.data == s.data[p.ino := s.data[p.ino]];
    } else if |chunks[p.i].data| > 0 && failAt == Some(p.i) {
      ls := [WriteFails(k, 0)];
      assert chunks[p.i].data[..0] == [];
      Then(s, WriteFails(k, 0), []);
      assert [WriteFails(k, 0)] + [] == ls;
    } else {
      var s' := Next(s, WriteChunk(k));
      var rest := [];
      if chunks[p.i].err == NoErr {
        rest := CopyRun(s', k, failAt);
        Wider(s, s', Exec(s', rest), k, chunks[p.i].data, Copied(chunks, failAt, p.i + 1));
      }
      ls := [WriteChunk(k)] + rest;
      Then(s, WriteChunk(k), rest);
    }
  }

  lemma Wider(s: Fs, s1: Fs, s2: Fs, k: nat, a: seq<Byte>, b: seq<Byte>)
    requires HasChunk(s, k) && s.senders[k].phase.ino !in s.durable && s1 == StepWrite(s, k)
    requires s.senders[k].chunks[s.senders[k].phase.i] == Chunk(a, NoErr)
    requires Live(s2, k) && Wrote(s1, s2, k, b, s2.senders[k].phase.Complete?)
    ensures Wrote(s, s2, k, a + b, s2.senders[k].phase.Complete?)
  {
    var ino := s.senders[k].phase.ino;
    Assoc(s.data[ino], a, b);
    assert s2.data == s.data[ino := s.data[ino] + (a + b)];
    assert s2.senders == At(s, k, s2.senders[k].phase);
  }

  /** The steps after the copy. */
  function Finish(k: nat, ok: bool, env: SendEnv): seq<Label> {
    if !ok || env.syncFails then [Fail(k, !env.removeFails)]
    else if env.closeFails then [Sync(k), Fail(k, !env.removeFails)]
    else if env.renameFails then [Sync(k), Close(k), Fail(k, !env.removeFails)]
    else [Sync(k), Close(k), Rename(k)]
  }

  lemma FinishRun(s: Fs, k: nat, ok: bool, env: SendEnv)
    requires Live(s, k) && (ok <==> s.senders[k].phase.Complete?)
    requires s.senders[k].phase.tmp in s.names
    ensures var ls, p := Finish(k, ok, env), s.senders[k].phase;
            && Run(s, ls) && Exec(s, ls).data == s.data
            && Exec(s, ls).names == if ok && !env.syncFails && !env.closeFails && !env.renameFails
                                    then (s.names - {p.tmp})[s.senders[k].dst := s.names[p.tmp]]
                                    else if env.removeFails then s.names else s.names - {p.tmp}
  {
    var last := if ok && !env.syncFails && !env.closeFails && !env.renameFails then Rename(k)
                else Fail(k, !env.removeFails);
    if !ok || env.syncFails {
      Then(s, last, []);
      assert [last] + [] == Finish(k, ok, env);
    } else {
      var synced := Next(s, Sync(k));
      if env.closeFails {
        Then(synced, last, []);
        Then(s, Sync(k), [last] + []);
        assert [Sync(k)] + ([last] + []) == Finish(k, ok, env);
      } else {
        var closed := Next(synced, Close(k));
        Then(closed, last, []);
        Then(synced, Close(k), [last] + []);
        Then(s, Sync(k), [Close(k)] + ([last] + []));
        assert [Sync(k)] + ([Close(k)] + ([last] + [])) == Finish(k, ok, env);
      }
    }
  }

  lemma NotCreated(s: Fs, k: nat, dst: string, chunks: seq<Chunk>) returns (ls: seq<Label>)
    requires k !in s.senders && !IsTemp(dst)
    ensures Run(s, ls) && Files(Exec(s, ls)) == Files(s)
  {
    var begun := Next(s, Begin(k, dst, chunks));
    Then(begun, Fail(k, false), []);
    Then(s, Begin(k, dst, chunks), [Fail(k, false)] + []);
    ls := [Begin(k, dst, chunks)] + ([Fail(k, false)] + []);
  }

  /** A file of its own under a name that may then be moved or dropped. */
  lemma FilesAfter(s: Fs, tmp: string, ino: nat, dst: string, bytes: seq<Byte>, end: Fs)
    requires NamesDistinct(s) && tmp !in s.names && ino == s.nextIno
    requires end.data == s.data[ino := bytes]
    ensures end.names == (s.names[tmp := ino] - {tmp})[dst := ino] ==> Files(end) == Files(s)[dst := bytes]
    ensures end.names == s.names[tmp := ino] ==> Files(end) == Files(s)[tmp := bytes]
    ensures end.names == s.names[tmp := ino] - {tmp} ==> Files(end) == Files(s)
  {
    assert ino !in s.data;
    assert s.names[tmp := ino] - {tmp} == s.names;
    Placed(s, dst, ino, bytes, end);
    Placed(s, tmp, ino, bytes, end);
  }

  lemma Placed(s: Fs, p: string, ino: nat, bytes: seq<Byte>, end: Fs)
    requires NamesDistinct(s) && ino !in s.data && end.data == s.data[ino := bytes]
    ensures end.names == s.names[p := ino] ==> Files(end) == Files(s)[p := bytes]
    ensures end.names == s.names ==> Files(end) == Files(s)
  {
  }

  /** From any filesystem, a send of the object is a run of a new sender. */
  lemma SendIsRun(s: Fs, k: nat, dst: string, tmp: string, chunks: seq<Chunk>, env: SendEnv) returns (ls: seq<Label>)
    requires NamesDistinct(s) && k !in s.senders && tmp !in s.names && IsTemp(tmp) && !IsTemp(dst)
    ensures Run(s, ls) && Files(Exec(s, ls)) == SendFiles(Files(s), dst, tmp, chunks, env)
  {
    if env.ctxDone || env.createFails.Some? {
      ls := NotCreated(s, k, dst, chunks);
    } else {
      ls := CreatedRun(s, k, dst, tmp, chunks, env);
    }
  }

  /** Up to the end of the copy: a new file under the temporary name holds what was copied. */
  lemma CopiedRun(s: Fs, k: nat, dst: string, tmp: string, chunks: seq<Chunk>, failAt: Option<nat>)
    returns (ls: seq<Label>)
    requires NamesDistinct(s) && k !in s.senders && tmp !in s.names && IsTemp(tmp) && !IsTemp(dst)
    ensures Run(s, ls)
    ensures var s' := Exec(s, ls);
            && s'.data == s.data[s.nextIno := Copied(chunks, failAt, 0)] && s'.names == s.names[tmp := s.nextIno]
            && Live(s', k) && s'.senders[k].dst == dst && s'.senders[k].phase.tmp == tmp
            && (CopySucceeds(chunks, failAt, 0) <==> s'.senders[k].phase.Complete?)
  {
    var open, created := Opened(s, k, dst, tmp, chunks);
    var copy := CopyRun(created, k, failAt);
    RunAppend(s, open, copy);
    ls := open + copy;
    var bytes := Copied(chunks, failAt, 0);
    assert [] + bytes == bytes && s.data[s.nextIno := []][s.nextIno := bytes] == s.data[s.nextIno := bytes];
  }

  /** The empty temporary file. */
  lemma Opened(s: Fs, k: nat, dst: string, tmp: string, chunks: seq<Chunk>) returns (ls: seq<Label>, s': Fs)
    requires NamesDistinct(s) && k !in s.senders && tmp !in s.names && IsTemp(tmp) && !IsTemp(dst)
    ensures Run(s, ls) && s' == Exec(s, ls)
    ensures s'.data == s.data[s.nextIno := []] && s'.names == s.names[tmp := s.nextIno] && s'.durable == s.durable
    ensures s.nextIno !in s'.durable
    ensures k in s'.senders && s'.senders[k] == Sender(dst, chunks, Copying(tmp, s.nextIno, 0))
  {
    var begun := Next(s, Begin(k, dst, chunks));
    s' := Next(begun, Create(k, tmp));
    Then(begun, Create(k, tmp), []);
    Then(s, Begin(k, dst, chunks), [Create(k, tmp)] + []);
    ls := [Begin(k, dst, chunks)] + ([Create(k, tmp)] + []);
  }

  lemma CreatedRun(s: Fs, k: nat, dst: string, tmp: string, chunks: seq<Chunk>, env: SendEnv) returns (ls: seq<Label>)
    requires NamesDistinct(s) && k !in s.senders && tmp !in s.names && IsTemp(tmp) && !IsTemp(dst)
    requires !env.ctxDone && env.createFails.None?
    ensures Run(s, ls) && Files(Exec(s, ls)) == SendFiles(Files(s), dst, tmp, chunks, env)
  {
    var ok := CopySucceeds(chunks, env.writeFailAt, 0);
    var copy := CopiedRun(s, k, dst, tmp, chunks, env.writeFailAt);
    FinishRun(Exec(s, copy), k, ok, env);
    RunAppend(s, copy, Finish(k, ok, env));
    ls := copy + Finish(k, ok, env);
    FilesAfter(s, tmp, s.nextIno, dst, Copied(chunks, env.writeFailAt, 0), Exec(s, ls));
    if ok {
      CopiedAll(chunks, env.writeFailAt, 0);
      assert chunks[0..] == chunks;
    }
  }
}
