/**
 * Many concurrent sends into one filesystem, step by step, with processes that stop at any point and power
 * failures that garble whatever was not synced. Seen from the destinations, the filesystem is a store of
 * whole files.
 */
module LocalFsSystem {
  import opened Common
  import opened ByteStream
  import opened LocalFs

  /** How far one send has come; `ino` is the file behind its open descriptor. */
  datatype Phase =
    | Ready
    | Copying(tmp: string, ino: nat, i: nat)   // the chunks before the i-th are written
    | Broken(tmp: string, ino: nat)            // the copy stopped with an error
    | Complete(tmp: string, ino: nat)          // the copy stopped with EOF
    | Synced(tmp: string, ino: nat)
    | Closed(tmp: string, ino: nat)
    | Ended

  datatype Sender = Sender(dst: string, chunks: seq<Chunk>, phase: Phase)

  datatype Fs = Fs(names: map<string, nat>, data: map<nat, seq<Byte>>, durable: set<nat>, nextIno: nat,
                   senders: map<nat, Sender>)

  datatype Label =
    | Begin(k: nat, dst: string, chunks: seq<Chunk>)
    | Create(k: nat, tmp: string)
    | WriteChunk(k: nat)
    | WriteFails(k: nat, n: nat)               // after n bytes of the chunk
    | Sync(k: nat)
    | Close(k: nat)
    | Rename(k: nat)
    | Fail(k: nat, removed: bool)
    | PowerLoss(garbled: map<nat, seq<Byte>>)

  predicate Live(s: Fs, k: nat) {
    k in s.senders && !s.senders[k].phase.Ready? && !s.senders[k].phase.Ended?
  }

  /** Sender k is copying and has a chunk to write. */
  predicate HasChunk(s: Fs, k: nat) {
    && k in s.senders && s.senders[k].phase.Copying? && s.senders[k].phase.ino in s.data
    && s.senders[k].phase.i < |s.senders[k].chunks|
  }

  predicate Enabled(s: Fs, l: Label) {
    match l
    case Begin(k, dst, _) => k !in s.senders && !IsTemp(dst)
    case Create(k, tmp) => k in s.senders && s.senders[k].phase.Ready? && tmp !in s.names && IsTemp(tmp)
    case WriteChunk(k) => HasChunk(s, k)
    case WriteFails(k, n) => HasChunk(s, k) && n <= |s.senders[k].chunks[s.senders[k].phase.i].data|
    case Sync(k) => k in s.senders && s.senders[k].phase.Complete?
    case Close(k) => k in s.senders && s.senders[k].phase.Synced?
    case Rename(k) => k in s.senders && s.senders[k].phase.Closed? && s.senders[k].phase.tmp in s.names
    case Fail(k, _) => k in s.senders && !s.senders[k].phase.Ended?
    case PowerLoss(garbled) => garbled.Keys == s.data.Keys
  }

  function At(s: Fs, k: nat, phase: Phase): map<nat, Sender>
    requires k in s.senders
  {
    s.senders[k := s.senders[k].(phase := phase)]
  }

  function Append(s: Fs, ino: nat, bytes: seq<Byte>): Fs
    requires ino in s.data
  {
    s.(data := s.data[ino := s.data[ino] + bytes], durable := s.durable - {ino})
  }

  /** One round of the copy: the chunk is written, and its error, if any, ends the copy. */
  function StepWrite(s: Fs, k: nat): Fs
    requires HasChunk(s, k)
  {
    var Copying(tmp, ino, i) := s.senders[k].phase;
    var c := s.senders[k].chunks[i];
    Append(s, ino, c.data).(senders := At(s, k, match c.err
                                                case NoErr => Copying(tmp, ino, i + 1)
                                                case Eof => Complete(tmp, ino)
                                                case Fault => Broken(tmp, ino)))
  }

  function Next(s: Fs, l: Label): Fs
    requires Enabled(s, l)
  {
    match l
    case Begin(k, dst, chunks) => s.(senders := s.senders[k := Sender(dst, chunks, Ready)])
    case Create(k, tmp) =>
      s.(names := s.names[tmp := s.nextIno], data := s.data[s.nextIno := []], nextIno := s.nextIno + 1,
         senders := At(s, k, Copying(tmp, s.nextIno, 0)))
    case WriteChunk(k) => StepWrite(s, k)
    case WriteFails(k, n) =>
      var p := s.senders[k].phase;
      Append(s, p.ino, s.senders[k].chunks[p.i].data[..n]).(senders := At(s, k, Broken(p.tmp, p.ino)))
    case Sync(k) =>
      var p := s.senders[k].phase;
      s.(durable := s.durable + {p.ino}, senders := At(s, k, Synced(p.tmp, p.ino)))
    case Close(k) =>
      var p := s.senders[k].phase;
      s.(senders := At(s, k, Closed(p.tmp, p.ino)))
    case Rename(k) =>
      var tmp := s.senders[k].phase.tmp;
      s.(names := (s.names - {tmp})[s.senders[k].dst := s.names[tmp]], senders := At(s, k, Ended))
    case Fail(k, removed) =>
      var p := s.senders[k].phase;
      s.(names := if removed && !p.Ready? then s.names - {p.tmp} else s.names, senders := At(s, k, Ended))
    case PowerLoss(garbled) =>
      s.(data := map i | i in s.data :: if i in s.durable then s.data[i] else garbled[i],
         senders := map k | k in s.senders :: s.senders[k].(phase := Ended))
  }

  /** What a reader of the destinations sees. */
  function Visible(s: Fs): map<string, seq<Byte>> {
    map p | p in s.names && !IsTemp(p) && s.names[p] in s.data :: s.data[s.names[p]]
  }

  ghost predicate NamesDistinct(s: Fs) {
    && (forall p | p in s.names :: s.names[p] in s.data)
    && (forall i | i in s.data || i in s.durable :: i < s.nextIno)
    && (forall p, q | p in s.names && q in s.names && p != q :: s.names[p] != s.names[q])
  }

  /** A sender under way has its temporary file. The chunks written so far and those to come make up the
      body; from EOF on it is all there, and once synced it is durable. */
  ghost predicate Owns(s: Fs, k: nat)
    requires Live(s, k)
  {
    var p, chunks := s.senders[k].phase, s.senders[k].chunks;
    && IsTemp(p.tmp) && p.tmp in s.names && s.names[p.tmp] == p.ino && p.ino in s.data
    && (p.Copying? ==> Midway(chunks, p.i, s.data[p.ino]))
    && (p.Complete? || p.Synced? || p.Closed? ==> EndsWell(chunks) && s.data[p.ino] == Stream(chunks))
    && (p.Synced? || p.Closed? ==> p.ino in s.durable)
  }

  ghost predicate Midway(chunks: seq<Chunk>, i: nat, data: seq<Byte>) {
    && i <= |chunks| && data + Stream(chunks[i..]) == Stream(chunks)
    && (EndsWell(chunks) <==> EndsWell(chunks[i..]))
  }

  lemma ChunkWritten(chunks: seq<Chunk>, i: nat, data: seq<Byte>)
    requires Midway(chunks, i, data) && i < |chunks|
    ensures chunks[i].err == NoErr ==> Midway(chunks, i + 1, data + chunks[i].data)
    ensures chunks[i].err == Eof ==> EndsWell(chunks) && data + chunks[i].data == Stream(chunks)
  {
    var c, rest := chunks[i], chunks[i + 1..];
    assert chunks[i..][0] == c && chunks[i..][1..] == rest;
    Assoc(data, c.data, Stream(rest));
  }

  ghost predicate SendersOwn(s: Fs) {
    && (forall k | Live(s, k) :: Owns(s, k))
    && (forall j, k | Live(s, j) && Live(s, k) && j != k :: s.senders[j].phase.tmp != s.senders[k].phase.tmp)
    && (forall k | k in s.senders :: !IsTemp(s.senders[k].dst))
  }

  ghost predicate DestinationsDurable(s: Fs) {
    forall p | p in s.names && !IsTemp(p) :: s.names[p] in s.durable
  }

  ghost predicate Inv(s: Fs) {
    NamesDistinct(s) && SendersOwn(s) && DestinationsDurable(s)
  }

  lemma StepKeepsNames(s: Fs, l: Label)
    requires Inv(s) && Enabled(s, l)
    ensures NamesDistinct(Next(s, l)) && DestinationsDurable(Next(s, l))
  {
    if !l.PowerLoss? && Live(s, l.k) {
      assert Owns(s, l.k);
    }
  }

  lemma OwnsKept(s: Fs, l: Label, k: nat)
    requires Inv(s) && Enabled(s, l) && Live(Next(s, l), k)
    ensures Owns(Next(s, l), k)
  {
    if Live(s, k) {
      assert Owns(s, k);
      if l == WriteChunk(k) {
        ChunkWritten(s.senders[k].chunks, s.senders[k].phase.i, s.data[s.senders[k].phase.ino]);
      }
    }
    if !l.PowerLoss? && Live(s, l.k) {
      assert Owns(s, l.k);
    }
  }

  lemma StepKeepsSenders(s: Fs, l: Label)
    requires Inv(s) && Enabled(s, l)
    ensures SendersOwn(Next(s, l))
  {
    forall k | Live(Next(s, l), k) ensures Owns(Next(s, l), k) {
      OwnsKept(s, l, k);
    }
    TempsDistinct(s, l);
  }

  lemma StepKeepsInv(s: Fs, l: Label)
    requires Inv(s) && Enabled(s, l)
    ensures Inv(Next(s, l))
  {
    StepKeepsNames(s, l);
    StepKeepsSenders(s, l);
  }

  lemma TempsDistinct(s: Fs, l: Label)
    requires Inv(s) && Enabled(s, l)
    ensures var t := Next(s, l);
            && (forall j, k | Live(t, j) && Live(t, k) && j != k :: t.senders[j].phase.tmp != t.senders[k].phase.tmp)
            && (forall k | k in t.senders :: !IsTemp(t.senders[k].dst))
  {
    var t := Next(s, l);
    forall j, k | Live(t, j) && Live(t, k) && j != k ensures t.senders[j].phase.tmp != t.senders[k].phase.tmp {
      assert Live(s, j) ==> Owns(s, j);
      assert Live(s, k) ==> Owns(s, k);
    }
  }

  /** Only a rename changes what is visible, and it installs the whole content of the sender at once. */
  function Put(seen: map<string, seq<Byte>>, s: Fs, l: Label): map<string, seq<Byte>>
    requires Enabled(s, l)
  {
    if l.Rename? then seen[s.senders[l.k].dst := Stream(s.senders[l.k].chunks)] else seen
  }

  lemma StepIsPut(s: Fs, l: Label)
    requires Inv(s) && Enabled(s, l)
    ensures Visible(Next(s, l)) == Put(Visible(s), s, l)
  {
    if l.Rename? {
      RenameIsPut(s, l.k);
    } else if l.WriteChunk? || l.WriteFails? {
      WriteIsHidden(s, l);
    } else if !l.PowerLoss? && Live(s, l.k) {
      assert Owns(s, l.k);
    }
  }

  lemma RenameIsPut(s: Fs, k: nat)
    requires Inv(s) && Enabled(s, Rename(k))
    ensures Visible(Next(s, Rename(k))) == Put(Visible(s), s, Rename(k))
  {
    assert Owns(s, k);
  }

  /** A file being written is under no destination's name. */
  lemma WriteIsHidden(s: Fs, l: Label)
    requires Inv(s) && Enabled(s, l) && (l.WriteChunk? || l.WriteFails?)
    ensures Visible(Next(s, l)) == Visible(s)
  {
    assert Owns(s, l.k);
  }

  ghost predicate Run(s: Fs, ls: seq<Label>)
    decreases |ls|
  {
    |ls| > 0 ==> Enabled(s, ls[0]) && Run(Next(s, ls[0]), ls[1..])
  }

  ghost function Exec(s: Fs, ls: seq<Label>): Fs
    requires Run(s, ls)
    decreases |ls|
  {
    if |ls| == 0 then s else Exec(Next(s, ls[0]), ls[1..])
  }

  /** The whole-file puts of a run, applied one after another. */
  ghost function Puts(seen: map<string, seq<Byte>>, s: Fs, ls: seq<Label>): map<string, seq<Byte>>
    requires Run(s, ls)
    decreases |ls|
  {
    if |ls| == 0 then seen else Puts(Put(seen, s, ls[0]), Next(s, ls[0]), ls[1..])
  }

  /** Before the first send: durable files at the destinations, no sender. */
  ghost predicate Init(s: Fs) {
    NamesDistinct(s) && DestinationsDurable(s) && s.senders == map[]
  }

  lemma {:induction false} RunIsPuts(s: Fs, ls: seq<Label>)
    requires Inv(s) && Run(s, ls)
    ensures Inv(Exec(s, ls)) && Visible(Exec(s, ls)) == Puts(Visible(s), s, ls)
    decreases |ls|
  {
    if |ls| == 0 {
    } else {
      StepKeepsInv(s, ls[0]);
      StepIsPut(s, ls[0]);
      RunIsPuts(Next(s, ls[0]), ls[1..]);
    }
  }

  /** The refinement: after any interleaving of sends, failures and power losses the destinations hold what
      the completed renames put there, whole, and otherwise what they held at the start. */
  lemma SendsAreAtomic(s0: Fs, ls: seq<Label>)
    requires Init(s0) && Run(s0, ls)
    ensures Visible(Exec(s0, ls)) == Puts(Visible(s0), s0, ls)
  {
    RunIsPuts(s0, ls);
  }

  /** Every visible file is one that was there at the start or the whole body of a sender to it. */
  ghost predicate Whole(seen0: map<string, seq<Byte>>, s: Fs) {
    forall p | p in Visible(s) :: (p in seen0 && Visible(s)[p] == seen0[p]) || SentTo(s, p, Visible(s)[p])
  }

  predicate WholeBody(chunks: seq<Chunk>, content: seq<Byte>) {
    EndsWell(chunks) && Stream(chunks) == content
  }

  ghost predicate SentTo(s: Fs, p: string, content: seq<Byte>) {
    exists k :: k in s.senders && s.senders[k].dst == p && WholeBody(s.senders[k].chunks, content)
  }

  lemma SentToKept(s: Fs, l: Label, p: string, content: seq<Byte>)
    requires Enabled(s, l) && SentTo(s, p, content)
    ensures SentTo(Next(s, l), p, content)
  {
    var k :| k in s.senders && s.senders[k].dst == p && WholeBody(s.senders[k].chunks, content);
    var t := Next(s, l).senders;
    assert k in t && t[k].dst == p && WholeBody(t[k].chunks, content);
  }

  lemma StepKeepsWhole(seen0: map<string, seq<Byte>>, s: Fs, l: Label)
    requires Inv(s) && Enabled(s, l) && Whole(seen0, s)
    ensures Whole(seen0, Next(s, l))
  {
    StepIsPut(s, l);
    var t := Next(s, l);
    forall p | p in Visible(t) ensures (p in seen0 && Visible(t)[p] == seen0[p]) || SentTo(t, p, Visible(t)[p]) {
      if l.Rename? && p == s.senders[l.k].dst {
        assert Owns(s, l.k);
        assert WholeBody(s.senders[l.k].chunks, Visible(t)[p]);
        assert SentTo(s, p, Visible(t)[p]);
      }
      if SentTo(s, p, Visible(t)[p]) {
        SentToKept(s, l, p, Visible(t)[p]);
      }
    }
  }

  lemma {:induction false} RunKeepsWhole(seen0: map<string, seq<Byte>>, s: Fs, ls: seq<Label>)
    requires Inv(s) && Run(s, ls) && Whole(seen0, s)
    ensures Whole(seen0, Exec(s, ls))
    decreases |ls|
  {
    if |ls| == 0 {
    } else {
      StepKeepsWhole(seen0, s, ls[0]);
      StepKeepsInv(s, ls[0]);
      RunKeepsWhole(seen0, Next(s, ls[0]), ls[1..]);
    }
  }

  /** No reader ever finds part of a file at a destination. */
  lemma OnlyWholeFiles(s0: Fs, ls: seq<Label>)
    requires Init(s0) && Run(s0, ls)
    ensures Whole(Visible(s0), Exec(s0, ls))
  {
    RunKeepsWhole(Visible(s0), s0, ls);
  }
}
