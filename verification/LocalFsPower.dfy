/** What a power failure does to a file depends on whether it was synced. */
module LocalFsPower {
  import opened Common
  import opened ByteStream
  import opened LocalFs
  import opened LocalFsSystem

  /** The sender's file has been synced. */
  predicate IsSynced(p: Phase) {
    p.Synced? || p.Closed?
  }

  /** Until a sender syncs its file, nothing has made it durable. */
  ghost predicate UnsyncedLoose(s: Fs) {
    forall k | Live(s, k) && !IsSynced(s.senders[k].phase) :: s.senders[k].phase.ino !in s.durable
  }

  lemma StepKeepsLoose(s: Fs, l: Label)
    requires Inv(s) && UnsyncedLoose(s) && Enabled(s, l)
    ensures UnsyncedLoose(Next(s, l))
  {
    if l.Sync? {
      forall k | Live(s, k) && k != l.k ensures s.senders[k].phase.ino != s.senders[l.k].phase.ino {
        assert Owns(s, k) && Owns(s, l.k);
      }
    }
  }

  lemma {:induction false} RunKeepsLoose(s: Fs, ls: seq<Label>)
    requires Inv(s) && UnsyncedLoose(s) && Run(s, ls)
    ensures Inv(Exec(s, ls)) && UnsyncedLoose(Exec(s, ls))
    decreases |ls|
  {
    if |ls| == 0 {
    } else {
      StepKeepsInv(s, ls[0]);
      StepKeepsLoose(s, ls[0]);
      RunKeepsLoose(Next(s, ls[0]), ls[1..]);
    }
  }

  /** The file behind the descriptor survives any power failure. */
  ghost predicate Survives(s: Fs, ino: nat)
    requires ino in s.data
  {
    forall garbled: map<nat, seq<Byte>> | garbled.Keys == s.data.Keys ::
      ino in Next(s, PowerLoss(garbled)).data && Next(s, PowerLoss(garbled)).data[ino] == s.data[ino]
  }

  /** In every reachable state the file of a send under way survives any power failure if and only if it was
      synced. */
  lemma SurvivesIffSynced(s0: Fs, ls: seq<Label>, k: nat)
    requires Init(s0) && Run(s0, ls) && Live(Exec(s0, ls), k)
    ensures var s := Exec(s0, ls);
            var p := s.senders[k].phase;
            p.ino in s.data && (Survives(s, p.ino) <==> IsSynced(p))
  {
    RunKeepsLoose(s0, ls);
    var s := Exec(s0, ls);
    var ino := s.senders[k].phase.ino;
    assert Owns(s, k);
    if !IsSynced(s.senders[k].phase) {
      var garbled := s.data[ino := s.data[ino] + [0 as Byte]];
      assert garbled.Keys == s.data.Keys;
      assert Next(s, PowerLoss(garbled)).data[ino] != s.data[ino];
    }
  }
}
