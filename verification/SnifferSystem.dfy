/**
 * The sniffer against a changing source: its poll is four separate steps (load, fetch, enqueue,
 * save), any of which may be the last before a failure or a restart; rows are inserted and updated
 * in between. Others use the job table too: jobs are enqueued from elsewhere, and retention deletes
 * jobs. One sniffer polls the source. A row's new version becomes visible no later than `lag`
 * microseconds after its timestamp.
 */
module SnifferSystem {
  import opened Common
  import opened Decimal
  import opened JobTable
  import opened SnifferQuery
  import opened SnifferEnqueue
  import opened Sniffer

  datatype Phase =
    | Resting
    | Loaded(m: Mark)
    | Holding(m: Mark, rows: seq<SrcRow>)   // fetched a non-empty batch
    | Enqueued(m: Mark, rows: seq<SrcRow>)

  /** Three history variables: `sent` are the versions of rows that were in an enqueued batch, `foreign` the
      keys enqueued from elsewhere, `deleted` those that retention took out of the table at some time. */
  datatype Sys = Sys(src: seq<SrcRow>, sent: set<SrcRow>, foreign: set<Key>, deleted: set<Key>, shelf: Shelf,
                     now: int, phase: Phase)

  datatype Label =
    | Put(row: SrcRow)
    | Tick(dt: nat)
    | Load
    | FetchRows
    | EnqueueRows
    | Save
    | Fail
    | Foreign(spec: JobSpec)
    | Delete(keys: set<Key>)

  function IndexOfKey(src: seq<SrcRow>, pk: int): (i: nat)
    ensures i <= |src| && (i < |src| ==> src[i].pk == pk) && forall j | 0 <= j < i :: src[j].pk != pk
  {
    if |src| == 0 || src[0].pk == pk then 0 else 1 + IndexOfKey(src[1..], pk)
  }

  /** INSERT, or UPDATE of the row with the same primary key. */
  function PutRow(src: seq<SrcRow>, r: SrcRow): seq<SrcRow> {
    var i := IndexOfKey(src, r.pk);
    if i < |src| then src[i := r] else src + [r]
  }

  predicate Enabled(e: Env, lag: nat, s: Sys, l: Label) {
    match l
    case Put(r) => s.now <= r.ts + lag
    case Tick(_) => true
    case Load => s.phase.Resting?
    case FetchRows => s.phase.Loaded? && e.query.batchSize > 0
    case EnqueueRows => s.phase.Holding?
    case Save => s.phase.Enqueued? && s.phase.rows != []
    case Fail => true
    case Foreign(_) => true
    case Delete(_) => true
  }

  function Next(e: Env, id: string, s: Sys, l: Label): Sys
    requires l.FetchRows? ==> s.phase.Loaded? && e.query.batchSize > 0
    requires l.EnqueueRows? ==> s.phase.Holding?
    requires l.Save? ==> s.phase.Enqueued? && s.phase.rows != []
  {
    match l
    case Put(r) => s.(src := PutRow(s.src, r))
    case Tick(dt) => s.(now := s.now + dt)
    case Load => s.(phase := Loaded(LoadMark(s.shelf.states, id)))
    case FetchRows =>
      var rows := Fetch(e.query, s.src, s.phase.m, s.now);
      s.(phase := if rows == [] then Resting else Holding(s.phase.m, rows))
    case EnqueueRows =>
      s.(shelf := s.shelf.(jobs := InsertRows(s.shelf.jobs, Specs(e, s.phase.rows))),
         sent := s.sent + SeqSet(s.phase.rows), phase := Enqueued(s.phase.m, s.phase.rows))
    case Save =>
      s.(shelf := s.shelf.(states := SaveMark(s.shelf.states, id, MarkOf(s.phase.rows[|s.phase.rows| - 1]))),
         phase := Resting)
    case Fail => s.(phase := Resting)
    case Foreign(j) => s.(shelf := s.shelf.(jobs := Enqueue1(s.shelf.jobs, j)), foreign := s.foreign + {KeyOf(j)})
    case Delete(ks) =>
      s.(shelf := s.shelf.(jobs := s.shelf.jobs - ks), deleted := s.deleted + (ks * s.shelf.jobs.Keys))
  }

  /** The four steps without anything in between are one clean poll. */
  lemma StepsMakePoll(e: Env, id: string, s: Sys)
    requires s.phase.Resting? && e.query.batchSize > 0
    ensures var fetched := Next(e, id, Next(e, id, s, Load), FetchRows);
            var polled := Poll(e, id, s.shelf, s.src, s.now, NoFault);
            && (fetched.phase.Resting? ==> fetched == s.(shelf := polled))
            && (fetched.phase.Holding? ==>
                  Next(e, id, Next(e, id, fetched, EnqueueRows), Save)
                  == s.(shelf := polled, sent := s.sent + SeqSet(fetched.phase.rows)))
  {
    var loaded := Next(e, id, s, Load);
    assert loaded.phase.m == LoadMark(s.shelf.states, id);
  }

  /** Deployment: any rows may already be there, no job was enqueued, no watermark is stored. */
  ghost predicate Init(id: string, lag: nat, s: Sys) {
    && DistinctKeys(s.src) && s.sent == {} && s.foreign == {} && s.deleted == {}
    && (forall r | r in s.src :: r.ts > ZERO_TS)
    && s.shelf.jobs == map[] && id !in s.shelf.states && s.phase == Resting && s.now > lag
  }

  ghost predicate Step(e: Env, id: string, lag: nat, s: Sys, s': Sys) {
    exists l :: Enabled(e, lag, s, l) && s' == Next(e, id, s, l)
  }

  /** The states visited by a run. */
  ghost predicate Run(e: Env, id: string, lag: nat, ss: seq<Sys>) {
    |ss| > 0 && Init(id, lag, ss[0]) && forall i | 0 <= i < |ss| - 1 :: Step(e, id, lag, ss[i], ss[i + 1])
  }

  // ---- completeness ----------------------------------------------------------------------

  function MarkNow(s: Sys, id: string): Mark {
    LoadMark(s.shelf.states, id)
  }

  /** Every row at or below the watermark was in an enqueued batch, unless it cannot be rendered. */
  ghost predicate Complete(e: Env, id: string, s: Sys) {
    forall r | r in s.src && !Above(r, MarkNow(s, id)) && SpecFor(e, r).Some? :: r in s.sent
  }

  /** The same of all rows, renderable or not. */
  ghost predicate AllSent(id: string, s: Sys) {
    forall r | r in s.src && !Above(r, MarkNow(s, id)) :: r in s.sent
  }

  /** The batch in hand: settled rows above the watermark, and all of them up to its last. */
  ghost predicate BatchOk(e: Env, id: string, s: Sys, m: Mark, rows: seq<SrcRow>) {
    && m == MarkNow(s, id)
    && rows != [] && |rows| <= e.query.batchSize && Ordered(rows)
    && (forall r | r in rows :: Above(r, m))
    && (var last := rows[|rows| - 1];
        && last.ts <= s.now - BiasMicros(e.query)
        && (forall r | r in s.src && Above(r, m) && !Less(last, r) :: r in rows))
  }

  ghost predicate PhaseOk(e: Env, id: string, s: Sys) {
    match s.phase
    case Resting => true
    case Loaded(m) => m == MarkNow(s, id)
    case Holding(m, rows) => BatchOk(e, id, s, m, rows)
    case Enqueued(m, rows) => BatchOk(e, id, s, m, rows) && forall r | r in rows :: r in s.sent
  }

  ghost predicate SourceOk(e: Env, id: string, s: Sys) {
    && DistinctKeys(s.src)
    && (forall r | r in s.src :: r.ts > ZERO_TS)
    && (id in s.shelf.states ==> s.shelf.states[id].ts <= s.now - BiasMicros(e.query))
  }

  ghost predicate Inv(e: Env, id: string, lag: nat, s: Sys) {
    s.now > lag && SourceOk(e, id, s) && AllSent(id, s) && PhaseOk(e, id, s)
  }

  // ---- each step ------------------------------------------------------------------------------

  lemma PutMembers(src: seq<SrcRow>, r: SrcRow)
    requires DistinctKeys(src)
    ensures DistinctKeys(PutRow(src, r))
    ensures forall x | x in PutRow(src, r) :: x == r || x in src
  {
  }

  /** A row that has just become visible lies above the watermark, and above any batch in hand. */
  lemma PutKeeps(e: Env, id: string, lag: nat, s: Sys, r: SrcRow)
    requires Inv(e, id, lag, s) && lag < BiasMicros(e.query) && s.now <= r.ts + lag
    ensures Inv(e, id, lag, Next(e, id, s, Put(r)))
  {
    PutMembers(s.src, r);
    assert Above(r, MarkNow(s, id));
  }

  lemma FetchKeeps(e: Env, id: string, lag: nat, s: Sys)
    requires Inv(e, id, lag, s) && Enabled(e, lag, s, FetchRows)
    ensures Inv(e, id, lag, Next(e, id, s, FetchRows))
  {
    var rows := Fetch(e.query, s.src, s.phase.m, s.now);
    FetchIsFirstEligible(e.query, s.src, s.phase.m, s.now);
    if rows != [] {
      var last := rows[|rows| - 1];
      assert last in rows;
      forall r | r in s.src && Above(r, s.phase.m) && !Less(last, r) ensures r in rows {
        assert Settled(r, s.now, BiasMicros(e.query));
      }
    }
  }

  lemma SaveKeeps(e: Env, id: string, lag: nat, s: Sys)
    requires Inv(e, id, lag, s) && Enabled(e, lag, s, Save)
    ensures Inv(e, id, lag, Next(e, id, s, Save))
  {
  }

  lemma StepKeepsInv(e: Env, id: string, lag: nat, s: Sys, s': Sys)
    requires Inv(e, id, lag, s) && lag < BiasMicros(e.query) && Step(e, id, lag, s, s')
    ensures Inv(e, id, lag, s')
  {
    var l :| Enabled(e, lag, s, l) && s' == Next(e, id, s, l);
    match l {
      case Put(r) => PutKeeps(e, id, lag, s, r);
      case FetchRows => FetchKeeps(e, id, lag, s);
      case Save => SaveKeeps(e, id, lag, s);
      case _ =>
    }
  }

  lemma {:induction false} RunKeepsInv(e: Env, id: string, lag: nat, ss: seq<Sys>, n: nat)
    requires Run(e, id, lag, ss) && lag < BiasMicros(e.query) && n < |ss|
    ensures Inv(e, id, lag, ss[n])
  {
    if n == 0 {
    } else {
      RunKeepsInv(e, id, lag, ss, n - 1);
      StepKeepsInv(e, id, lag, ss[n - 1], ss[n]);
    }
  }
}
