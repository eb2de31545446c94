/**
 * WakeAll against sleepers that come and go, with Go's slices spelled out: a slice is a backing array and
 * a length, an append may write into spare room of the array it already has, an eviction shifts entries in
 * place, and WakeAll keeps iterating, outside the mutex, over the slice it took. `expected`, `told` and
 * `home` are history variables.
 */
module IdleWakeAll {
  import opened Common
  import opened IdleBackoff

  datatype Slice = Nil | Slice(arr: nat, len: nat)

  /** Where a channel is: in the list, in the hands of a WakeAll, sent to, or evicted. */
  datatype Home = Listed | TakenBy(t: nat) | Told | Gone

  /** A WakeAll: the slice it took, how far it has come, and what the slice held when taken. */
  datatype Take = Take(list: Slice, idx: nat, expected: seq<nat>)

  datatype Sys = Sys(base: int, maxDelay: int, nominal: int, wakers: Slice, arrays: map<nat, seq<nat>>,
                     sleepers: map<nat, nat>, takes: map<nat, Take>, buffered: set<nat>, told: seq<nat>,
                     home: map<nat, Home>, chans: nat, arrs: nat)

  datatype Label =
    | Park(g: nat, room: nat)   // WaitOnce up to the select; room: spare capacity if the list has to grow
    | Unpark(g: nat)            // WaitOnce after the select, whatever ended it
    | TakeAll(t: nat)           // WakeAll under the mutex
    | SendNext(t: nat)          // WakeAll's next send

  predicate InBounds(arrays: map<nat, seq<nat>>, sl: Slice) {
    sl.Slice? ==> sl.arr in arrays && sl.len <= |arrays[sl.arr]|
  }

  function View(arrays: map<nat, seq<nat>>, sl: Slice): seq<nat>
    requires InBounds(arrays, sl)
  {
    if sl.Nil? then [] else arrays[sl.arr][..sl.len]
  }

  predicate Enabled(s: Sys, l: Label) {
    InBounds(s.arrays, s.wakers)
    && match l
       case Park(g, _) => g !in s.sleepers
       case Unpark(g) => g in s.sleepers
       case TakeAll(t) => t !in s.takes
       case SendNext(t) => t in s.takes && s.takes[t].list.Slice? && InBounds(s.arrays, s.takes[t].list)
                           && s.takes[t].idx < s.takes[t].list.len
  }

  /** append(wakers, ch) */
  function StepPark(s: Sys, g: nat, room: nat): Sys
    requires InBounds(s.arrays, s.wakers)
  {
    var ch: nat := s.chans;
    var s' := s.(nominal := Advance(s.nominal, s.maxDelay), sleepers := s.sleepers[g := ch],
                 home := s.home[ch := Listed], chans := s.chans + 1);
    if s.wakers.Slice? && s.wakers.len < |s.arrays[s.wakers.arr]| then
      var Slice(a, n) := s.wakers;
      var filled: seq<nat> := s.arrays[a][n := ch];
      s'.(arrays := s.arrays[a := filled], wakers := Slice(a, n + 1))
    else
      var view := View(s.arrays, s.wakers);
      s'.(arrays := s.arrays[s.arrs := view + [ch] + seq(room, _ => 0)], wakers := Slice(s.arrs, |view| + 1),
          arrs := s.arrs + 1)
  }

  function Position(ws: seq<nat>, ch: nat): (k: nat)
    ensures k <= |ws| && (k < |ws| ==> ws[k] == ch) && forall j | 0 <= j < k :: ws[j] != ch
  {
    if |ws| == 0 || ws[0] == ch then 0 else 1 + Position(ws[1..], ch)
  }

  /** append(wakers[:k], wakers[k+1:]...) on the array itself: the tail moves down one place. */
  function ShiftDown(arr: seq<nat>, k: nat, len: nat): seq<nat>
    requires k < len <= |arr|
  {
    arr[..k] + arr[k + 1..len] + arr[len - 1..]
  }

  function StepUnpark(s: Sys, g: nat): Sys
    requires InBounds(s.arrays, s.wakers) && g in s.sleepers
  {
    var ch := s.sleepers[g];
    var view := View(s.arrays, s.wakers);
    var k := Position(view, ch);
    var s' := s.(sleepers := s.sleepers - {g}, buffered := s.buffered - {ch});
    if k < |view| then
      var Slice(a, n) := s.wakers;
      s'.(arrays := s.arrays[a := ShiftDown(s.arrays[a], k, n)], wakers := Slice(a, n - 1), home := s.home[ch := Gone])
    else s'
  }

  function StepTake(s: Sys, t: nat): Sys
    requires InBounds(s.arrays, s.wakers)
  {
    var view := View(s.arrays, s.wakers);
    s.(nominal := s.base, wakers := Nil, takes := s.takes[t := Take(s.wakers, 0, view)],
       home := map c | c in s.home :: if c in view then TakenBy(t) else s.home[c])
  }

  /** A send into a one-slot channel that is skipped when the slot is full. */
  function StepSend(s: Sys, t: nat): Sys
    requires t in s.takes && s.takes[t].list.Slice? && InBounds(s.arrays, s.takes[t].list)
    requires s.takes[t].idx < s.takes[t].list.len
  {
    var tk := s.takes[t];
    var ch := s.arrays[tk.list.arr][tk.idx];
    var s' := s.(takes := s.takes[t := tk.(idx := tk.idx + 1)]);
    if ch in s.buffered then s'
    else s'.(buffered := s.buffered + {ch}, told := s.told + [ch], home := s.home[ch := Told])
  }

  function Next(s: Sys, l: Label): Sys
    requires Enabled(s, l)
  {
    match l
    case Park(g, room) => StepPark(s, g, room)
    case Unpark(g) => StepUnpark(s, g)
    case TakeAll(t) => StepTake(s, t)
    case SendNext(t) => StepSend(s, t)
  }

  predicate Init(s: Sys) {
    s == Sys(s.base, s.maxDelay, s.base, Nil, map[], map[], map[], {}, [], map[], 0, 0)
  }

  ghost predicate Run(s: Sys, ls: seq<Label>)
    decreases |ls|
  {
    |ls| > 0 ==> Enabled(s, ls[0]) && Run(Next(s, ls[0]), ls[1..])
  }

  ghost function Exec(s: Sys, ls: seq<Label>): Sys
    requires Run(s, ls)
    decreases |ls|
  {
    if |ls| == 0 then s else Exec(Next(s, ls[0]), ls[1..])
  }

  // ---- the invariant ------------------------------------------------------------------

  /** No array of a taken slice is the one the list uses now, and its contents are as taken. */
  ghost predicate TakeOk(s: Sys, t: nat)
    requires t in s.takes
  {
    var tk := s.takes[t];
    && InBounds(s.arrays, tk.list) && View(s.arrays, tk.list) == tk.expected
    && (s.wakers.Slice? && tk.list.Slice? ==> s.wakers.arr != tk.list.arr)
    && NoDup(tk.expected) && tk.idx <= |tk.expected|
    && (forall i | 0 <= i < |tk.expected| ::
          tk.expected[i] in s.home && s.home[tk.expected[i]] == if i < tk.idx then Told else TakenBy(t))
  }

  ghost predicate ListOk(s: Sys) {
    && InBounds(s.arrays, s.wakers)
    && (forall a | a in s.arrays :: a < s.arrs)
    && NoDup(View(s.arrays, s.wakers))
    && (forall c :: c in View(s.arrays, s.wakers) <==> c in s.home && s.home[c] == Listed)
  }

  ghost predicate ToldOk(s: Sys) {
    && NoDup(s.told) && (forall c :: c in s.told <==> c in s.home && s.home[c] == Told)
    && (forall c | c in s.buffered :: c in s.told)
    && (forall c | c in s.home :: c < s.chans)
  }

  /** Every goroutine in WaitOnce is listed, or in the hands of a WakeAll, or has been sent its token. */
  ghost predicate SleepersOk(s: Sys) {
    && (forall g | g in s.sleepers :: s.sleepers[g] in s.home && s.home[s.sleepers[g]] != Gone)
    && (forall g, h | g in s.sleepers && h in s.sleepers && g != h :: s.sleepers[g] != s.sleepers[h])
  }

  ghost predicate TakenOk(s: Sys) {
    && (forall t | t in s.takes :: TakeOk(s, t))
    && (forall c | c in s.home && s.home[c].TakenBy? :: s.home[c].t in s.takes && c in s.takes[s.home[c].t].expected)
  }

  ghost predicate Inv(s: Sys) {
    ListOk(s) && ToldOk(s) && SleepersOk(s) && TakenOk(s)
  }

  lemma ParkView(s: Sys, g: nat, room: nat)
    requires ListOk(s)
    ensures var s' := StepPark(s, g, room);
            InBounds(s'.arrays, s'.wakers) && View(s'.arrays, s'.wakers) == View(s.arrays, s.wakers) + [s.chans]
  {
  }

  lemma ParkList(s: Sys, g: nat, room: nat)
    requires ListOk(s) && s.chans !in s.home
    ensures ListOk(StepPark(s, g, room))
  {
    var s' := StepPark(s, g, room);
    ParkView(s, g, room);
    var view := View(s.arrays, s.wakers);
    assert forall i | 0 <= i < |view| :: view[i] in view;
    forall c ensures c in view + [s.chans] <==> c in s'.home && s'.home[c] == Listed {
      assert c in view + [s.chans] <==> c in view || c == s.chans;
    }
  }

  lemma ParkTakes(s: Sys, g: nat, room: nat)
    requires ListOk(s) && TakenOk(s) && s.chans !in s.home
    ensures TakenOk(StepPark(s, g, room))
  {
  }

  lemma ParkTold(s: Sys, g: nat, room: nat)
    requires ListOk(s) && ToldOk(s)
    ensures ToldOk(StepPark(s, g, room))
  {
  }

  lemma ParkSleepers(s: Sys, g: nat, room: nat)
    requires ListOk(s) && ToldOk(s) && SleepersOk(s) && g !in s.sleepers
    ensures SleepersOk(StepPark(s, g, room))
  {
  }

  lemma ParkKeeps(s: Sys, g: nat, room: nat)
    requires Inv(s) && Enabled(s, Park(g, room))
    ensures Inv(StepPark(s, g, room))
  {
    assert s.chans !in s.home;
    ParkList(s, g, room);
    ParkTakes(s, g, room);
    ParkTold(s, g, room);
    ParkSleepers(s, g, room);
  }

  lemma ShiftView(arr: seq<nat>, k: nat, len: nat)
    requires k < len <= |arr| && NoDup(arr[..len])
    ensures |ShiftDown(arr, k, len)| == |arr|
    ensures var after := ShiftDown(arr, k, len)[..len - 1];
            after == arr[..k] + arr[k + 1..len] && NoDup(after)
            && forall c :: c in after <==> c in arr[..len] && c != arr[k]
  {
  }

  lemma UnparkList(s: Sys, g: nat)
    requires ListOk(s) && SleepersOk(s) && g in s.sleepers
    ensures ListOk(StepUnpark(s, g))
  {
    var view := View(s.arrays, s.wakers);
    var k := Position(view, s.sleepers[g]);
    if k < |view| {
      var Slice(a, n) := s.wakers;
      ShiftView(s.arrays[a], k, n);
      assert s.sleepers[g] in view;
    }
  }

  lemma UnparkTakes(s: Sys, g: nat)
    requires Inv(s) && g in s.sleepers
    ensures TakenOk(StepUnpark(s, g))
  {
    var s' := StepUnpark(s, g);
    var view := View(s.arrays, s.wakers);
    var k := Position(view, s.sleepers[g]);
    assert k < |view| ==> s.sleepers[g] in view;
    forall t | t in s'.takes ensures TakeOk(s', t) {
      assert TakeOk(s, t);
    }
  }

  lemma UnparkRest(s: Sys, g: nat)
    requires Inv(s) && g in s.sleepers
    ensures ToldOk(StepUnpark(s, g)) && SleepersOk(StepUnpark(s, g))
  {
    var view := View(s.arrays, s.wakers);
    assert Position(view, s.sleepers[g]) < |view| ==> s.sleepers[g] in view;
  }

  lemma UnparkKeeps(s: Sys, g: nat)
    requires Inv(s) && Enabled(s, Unpark(g))
    ensures Inv(StepUnpark(s, g))
  {
    UnparkList(s, g);
    UnparkTakes(s, g);
    UnparkRest(s, g);
  }

  lemma TakeTakes(s: Sys, t: nat)
    requires Inv(s) && Enabled(s, TakeAll(t))
    ensures TakenOk(StepTake(s, t))
  {
  }

  lemma TakeRest(s: Sys, t: nat)
    requires Inv(s) && Enabled(s, TakeAll(t))
    ensures ListOk(StepTake(s, t)) && ToldOk(StepTake(s, t)) && SleepersOk(StepTake(s, t))
  {
  }

  lemma TakeKeeps(s: Sys, t: nat)
    requires Inv(s) && Enabled(s, TakeAll(t))
    ensures Inv(StepTake(s, t))
  {
    TakeTakes(s, t);
    TakeRest(s, t);
  }

  /** The channel about to be sent to has never been sent to, so its slot is empty. */
  lemma SendIsFirst(s: Sys, t: nat)
    requires Inv(s) && Enabled(s, SendNext(t))
    ensures var tk := s.takes[t];
            var ch := s.arrays[tk.list.arr][tk.idx];
            && ch == tk.expected[tk.idx] && ch !in s.buffered && ch !in s.told
            && ch in s.home && s.home[ch] == TakenBy(t)
  {
  }

  lemma SendTakes(s: Sys, t: nat)
    requires Inv(s) && Enabled(s, SendNext(t))
    ensures TakenOk(StepSend(s, t))
  {
    var s' := StepSend(s, t);
    SendIsFirst(s, t);
    assert TakeOk(s, t);
    var ch := s.takes[t].expected[s.takes[t].idx];
    forall x | x in s'.takes ensures TakeOk(s', x) {
      assert TakeOk(s, x);
      if x != t {
        assert ch !in s.takes[x].expected;
      }
    }
  }

  lemma SendTold(s: Sys, t: nat)
    requires Inv(s) && Enabled(s, SendNext(t))
    ensures ToldOk(StepSend(s, t)) && ListOk(StepSend(s, t)) && SleepersOk(StepSend(s, t))
  {
    SendIsFirst(s, t);
    assert forall i | 0 <= i < |s.told| :: s.told[i] in s.told;
  }

  lemma SendKeeps(s: Sys, t: nat)
    requires Inv(s) && Enabled(s, SendNext(t))
    ensures Inv(StepSend(s, t))
  {
    SendTakes(s, t);
    SendTold(s, t);
  }

  lemma {:induction false} RunKeepsInv(s: Sys, ls: seq<Label>)
    requires Inv(s) && Run(s, ls)
    ensures Inv(Exec(s, ls))
    decreases |ls|
  {
    if |ls| == 0 {
    } else {
      match ls[0] {
        case Park(g, room) => ParkKeeps(s, g, room);
        case Unpark(g) => UnparkKeeps(s, g);
        case TakeAll(t) => TakeKeeps(s, t);
        case SendNext(t) => SendKeeps(s, t);
      }
      RunKeepsInv(Next(s, ls[0]), ls[1..]);
    }
  }

  // ---- the object and the steps ----------------------------------------------------------------

  /** The state of the object: what the list shows, whatever array it is in. */
  function Abs(s: Sys): IdleState
    requires InBounds(s.arrays, s.wakers)
  {
    IdleState(s.nominal, View(s.arrays, s.wakers))
  }

  function AbsNext(s: Sys, st: IdleState, l: Label): IdleState
    requires Enabled(s, l)
  {
    match l
    case Park(_, _) => Entered(st, s.chans, s.maxDelay)
    case Unpark(g) => IdleBackoff.Left(st, s.sleepers[g])
    case TakeAll(_) => Restarted(s.base)
    case SendNext(_) => st
  }

  lemma UnparkView(s: Sys, g: nat)
    requires ListOk(s) && g in s.sleepers
    ensures var s' := StepUnpark(s, g);
            && InBounds(s'.arrays, s'.wakers)
            && View(s'.arrays, s'.wakers) == Without(View(s.arrays, s.wakers), s.sleepers[g])
  {
    var view, ch := View(s.arrays, s.wakers), s.sleepers[g];
    var k := Position(view, ch);
    WithoutAt(view, ch, k);
    if k < |view| {
      var Slice(a, n) := s.wakers;
      ShiftView(s.arrays[a], k, n);
      assert view[..k] == s.arrays[a][..k] && view[k + 1..] == s.arrays[a][k + 1..n];
    }
  }

  /** Each step under the mutex is the object's method, in whatever arrays the list lives. */
  lemma StepIsMethod(s: Sys, l: Label)
    requires Inv(s) && Enabled(s, l)
    ensures InBounds(Next(s, l).arrays, Next(s, l).wakers) && Abs(Next(s, l)) == AbsNext(s, Abs(s), l)
  {
    match l {
      case Park(g, room) => ParkView(s, g, room);
      case Unpark(g) => UnparkView(s, g);
      case _ =>
    }
  }

  /** The WaitOnce calls since the last WakeAll. */
  function ParksSince(ls: seq<Label>): nat {
    if |ls| == 0 then 0
    else
      var n, last := ParksSince(ls[..|ls| - 1]), ls[|ls| - 1];
      if last.Park? then n + 1 else if last.TakeAll? then 0 else n
  }

  lemma {:induction false} RunSplit(s: Sys, ls: seq<Label>, l: Label)
    requires Run(s, ls + [l])
    ensures Run(s, ls) && Enabled(Exec(s, ls), l) && Exec(s, ls + [l]) == Next(Exec(s, ls), l)
    decreases |ls|
  {
    if |ls| == 0 {
      assert ls + [l] == [l];
    } else {
      assert (ls + [l])[1..] == ls[1..] + [l];
      RunSplit(Next(s, ls[0]), ls[1..], l);
    }
  }

  lemma RunLast(s: Sys, ls: seq<Label>)
    requires |ls| > 0 && Run(s, ls)
    ensures var front, last := ls[..|ls| - 1], ls[|ls| - 1];
            Run(s, front) && Enabled(Exec(s, front), last) && Exec(s, ls) == Next(Exec(s, front), last)
  {
    assert ls == ls[..|ls| - 1] + [ls[|ls| - 1]];
    RunSplit(s, ls[..|ls| - 1], ls[|ls| - 1]);
  }

  lemma StepNominal(s: Sys, l: Label)
    requires Enabled(s, l)
    ensures Next(s, l).base == s.base && Next(s, l).maxDelay == s.maxDelay
    ensures Next(s, l).nominal == if l.Park? then Advance(s.nominal, s.maxDelay)
                                  else if l.TakeAll? then s.base else s.nominal
  {
  }

  /** In every run the nominal delay is that many steps up the schedule. */
  lemma {:induction false} NominalOfRun(s0: Sys, ls: seq<Label>)
    requires Init(s0) && Run(s0, ls)
    ensures var s := Exec(s0, ls);
            && s.base == s0.base && s.maxDelay == s0.maxDelay
            && s.nominal == NominalAt(ParksSince(ls), s0.base, s0.maxDelay)
    decreases |ls|
  {
    if |ls| == 0 {
    } else {
      var front, last := ls[..|ls| - 1], ls[|ls| - 1];
      RunLast(s0, ls);
      NominalOfRun(s0, front);
      StepNominal(Exec(s0, front), last);
    }
  }

  /** The goroutine has entered WaitOnce and not left it. */
  predicate Inside(ls: seq<Label>, g: nat) {
    |ls| > 0 &&
    var last := ls[|ls| - 1];
    if (last.Park? || last.Unpark?) && last.g == g then last.Park? else Inside(ls[..|ls| - 1], g)
  }

  lemma {:induction false} SleepersAreInside(s0: Sys, ls: seq<Label>, g: nat)
    requires Init(s0) && Run(s0, ls)
    ensures g in Exec(s0, ls).sleepers <==> Inside(ls, g)
    decreases |ls|
  {
    if |ls| == 0 {
    } else {
      RunLast(s0, ls);
      SleepersAreInside(s0, ls[..|ls| - 1], g);
    }
  }

  /** The token of a sleeper that was told is still in its channel. */
  ghost predicate TokensWait(s: Sys) {
    forall g | g in s.sleepers && s.sleepers[g] in s.told :: s.sleepers[g] in s.buffered
  }

  lemma StepKeepsTokens(s: Sys, l: Label)
    requires Inv(s) && Enabled(s, l) && TokensWait(s)
    ensures TokensWait(Next(s, l))
  {
    var s' := Next(s, l);
    assert forall c | c in s.told :: c < s.chans;
    forall g | g in s'.sleepers && s'.sleepers[g] in s'.told ensures s'.sleepers[g] in s'.buffered {
      assert g in s.sleepers ==> s'.sleepers[g] == s.sleepers[g];
    }
  }

  lemma {:induction false} RunKeepsTokens(s0: Sys, ls: seq<Label>)
    requires Init(s0) && Run(s0, ls)
    ensures TokensWait(Exec(s0, ls))
    decreases |ls|
  {
    if |ls| == 0 {
    } else {
      RunLast(s0, ls);
      RunKeepsTokens(s0, ls[..|ls| - 1]);
      RunKeepsInv(s0, ls[..|ls| - 1]);
      StepKeepsTokens(Exec(s0, ls[..|ls| - 1]), ls[|ls| - 1]);
    }
  }

  /** In every reachable state: a goroutine in WaitOnce is in the list that the next WakeAll takes, or its
      channel is one of those an earlier WakeAll took; what a WakeAll took is untouched by everything since;
      each of its sends so far delivered a token; and no channel is ever sent to twice. */
  lemma WakeAllReachesEveryone(s0: Sys, ls: seq<Label>)
    requires Init(s0) && Run(s0, ls)
    ensures var s := Exec(s0, ls);
            && InBounds(s.arrays, s.wakers) && NoDup(s.told)
            && (forall g :: g in s.sleepers <==> Inside(ls, g))
            && (forall g | g in s.sleepers && s.sleepers[g] in s.told :: s.sleepers[g] in s.buffered)
            && (forall g | g in s.sleepers ::
                  || s.sleepers[g] in View(s.arrays, s.wakers) || s.sleepers[g] in s.told
                  || exists t | t in s.takes :: s.sleepers[g] in s.takes[t].expected)
            && (forall t | t in s.takes ::
                  && InBounds(s.arrays, s.takes[t].list) && View(s.arrays, s.takes[t].list) == s.takes[t].expected
                  && s.takes[t].idx <= |s.takes[t].expected|
                  && forall i | 0 <= i < s.takes[t].idx :: s.takes[t].expected[i] in s.told)
  {
    RunKeepsInv(s0, ls);
    var s := Exec(s0, ls);
    RunKeepsTokens(s0, ls);
    forall g ensures g in s.sleepers <==> Inside(ls, g) {
      SleepersAreInside(s0, ls, g);
    }
    forall t | t in s.takes
      ensures && InBounds(s.arrays, s.takes[t].list) && View(s.arrays, s.takes[t].list) == s.takes[t].expected
              && s.takes[t].idx <= |s.takes[t].expected|
              && forall i | 0 <= i < s.takes[t].idx :: s.takes[t].expected[i] in s.told
    {
      assert TakeOk(s, t);
    }
    forall g | g in s.sleepers
      ensures || s.sleepers[g] in View(s.arrays, s.wakers) || s.sleepers[g] in s.told
              || exists t | t in s.takes :: s.sleepers[g] in s.takes[t].expected
    {
      assert s.sleepers[g] in s.home && s.home[s.sleepers[g]] != Gone;
    }
  }
}
