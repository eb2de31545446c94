/** One poll of the sniffer: load the watermark, fetch, render, enqueue as one batch, advance. */
module Sniffer {
  import opened Common
  import opened Decimal
  import opened JobTable
  import opened SnifferQuery
  import opened SnifferEnqueue

  /** Template rendering is left open: any partial functions of the fields. So is the text of a timestamp. */
  datatype Env = Env(query: Query, srcProtocol: string, dstProtocol: string, formatTs: int -> string,
                     renderDst: map<string, string> -> Option<string>, renderSrc: map<string, string> -> Option<string>)

  function SelectedColumns(q: Query): seq<string> {
    [q.pkColumn, q.tsColumn] + q.extraColumns
  }

  function FieldText(e: Env, r: SrcRow, c: string): string {
    if c == e.query.pkColumn then Itoa(r.pk)
    else if c == e.query.tsColumn then e.formatTs(r.ts)
    else if c in r.columns then r.columns[c] else ""
  }

  /** What a template sees of a row: the selected columns, key and timestamp among them. */
  function Fields(e: Env, r: SrcRow): map<string, string> {
    map c | c in SeqSet(SelectedColumns(e.query)) :: FieldText(e, r, c)
  }

  function TraceID(table: string, pk: string): string {
    table + "-" + pk
  }

  /** Within one table the trace id determines the row. */
  lemma TraceIDInjective(table: string, a: int, b: int)
    requires TraceID(table, Itoa(a)) == TraceID(table, Itoa(b))
    ensures a == b
  {
    var x, y := TraceID(table, Itoa(a)), TraceID(table, Itoa(b));
    assert x[|table| + 1..] == Itoa(a) && y[|table| + 1..] == Itoa(b);
    ItoaRoundTrip(a);
    ItoaRoundTrip(b);
  }

  /** A trace id as a table, a dash and digits, where a minus sign counts as the table's. */
  lemma TraceIDSplits(table: string, pk: int)
    ensures TraceID(table, Itoa(pk))
            == (if pk < 0 then table + "-" else table) + ['-'] + Digits(if pk < 0 then -pk else pk)
  {
    if pk < 0 {
      assert TraceID(table, Itoa(pk)) == table + "-" + ("-" + Digits(-pk));
    }
  }

  /** Rows of two tables share a trace id only when the name of one table is that of the other and a dash, and
      the key under the shorter name is the other one's negative. */
  lemma TraceIDsCollideIff(t: string, a: int, u: string, b: int)
    ensures TraceID(t, Itoa(a)) == TraceID(u, Itoa(b)) <==>
            (t == u && a == b) || (a < 0 && b == -a && u == t + "-") || (b < 0 && a == -b && t == u + "-")
  {
    TraceIDSplits(t, a);
    TraceIDSplits(u, b);
    var p, n := if a < 0 then t + "-" else t, if a < 0 then -a else a;
    var q, m := if b < 0 then u + "-" else u, if b < 0 then -b else b;
    if TraceID(t, Itoa(a)) == TraceID(u, Itoa(b)) {
      NumberAtEnd(p, n, q, m, '-');
      assert a < 0 ==> p[..|t|] == t;
      assert b < 0 ==> q[..|u|] == u;
    }
  }

  /** The job of a row, or None for a row that cannot be rendered. */
  function SpecFor(e: Env, r: SrcRow): Option<JobSpec> {
    match e.renderDst(Fields(e, r))
    case None => None
    case Some(dst) =>
      match e.renderSrc(Fields(e, r))
      case None => None
      case Some(src) => Some(JobSpec(TraceID(e.query.table, Itoa(r.pk)), src, dst, e.srcProtocol, e.dstProtocol))
  }

  /** Exactly the rows both templates render have a job, with every part in its place. */
  lemma SpecForExact(e: Env, r: SrcRow, j: JobSpec)
    ensures SpecFor(e, r) == Some(j) <==>
            && e.renderDst(Fields(e, r)) == Some(j.dst) && e.renderSrc(Fields(e, r)) == Some(j.src)
            && j.traceId == e.query.table + "-" + Itoa(r.pk)
            && j.srcProtocol == e.srcProtocol && j.dstProtocol == e.dstProtocol
  {
  }

  function Specs(e: Env, rows: seq<SrcRow>): seq<JobSpec> {
    if |rows| == 0 then []
    else
      var last := SpecFor(e, rows[|rows| - 1]);
      Specs(e, rows[..|rows| - 1]) + (if last.Some? then [last.value] else [])
  }

  lemma {:induction false} SpecsMembers(e: Env, rows: seq<SrcRow>)
    ensures forall j :: j in Specs(e, rows) <==> exists r | r in rows :: SpecFor(e, r) == Some(j)
  {
    if |rows| == 0 {
    } else {
      var front, r := rows[..|rows| - 1], rows[|rows| - 1];
      SpecsMembers(e, front);
      assert rows == front + [r];
      forall j ensures j in Specs(e, rows) <==> exists x | x in rows :: SpecFor(e, x) == Some(j) {
        if SpecFor(e, r) == Some(j) {
          assert r in rows;
        }
        if x :| x in rows && SpecFor(e, x) == Some(j) {
          assert x == r || x in front;
        }
        if x :| x in front && SpecFor(e, x) == Some(j) {
          assert x in rows;
        }
      }
    }
  }

  // ---- the stored watermark ---------------------------------------------------------

  /** A row of sniffer_state; pk None is SQL NULL. */
  datatype Stored = Stored(ts: int, pk: Option<string>)

  /** The zero value of time.Time. */
  const ZERO_TS: int := 0

  function LoadMark(states: map<string, Stored>, id: string): Mark {
    if id !in states then Mark(ZERO_TS, "")
    else Mark(states[id].ts, if states[id].pk.Some? then states[id].pk.value else "")
  }

  function SaveMark(states: map<string, Stored>, id: string, m: Mark): map<string, Stored> {
    states[id := Stored(m.ts, if m.pk == "" then None else Some(m.pk))]
  }

  /** What is saved is what is loaded, NULL standing for "". */
  lemma MarkRoundTrip(states: map<string, Stored>, id: string, m: Mark, other: string)
    ensures LoadMark(SaveMark(states, id, m), id) == m
    ensures SaveMark(states, id, m)[id].pk.None? <==> m.pk == ""
    ensures other != id ==> LoadMark(SaveMark(states, id, m), other) == LoadMark(states, other)
  {
  }

  // ---- one poll ------------------------------------------------------------------------

  /** Where a poll fails, and for a write whether it had been committed. */
  datatype Fault = NoFault | AtLoad | AtFetch | AtEnqueue(committed: bool) | AtSave(committed: bool)

  datatype Shelf = Shelf(states: map<string, Stored>, jobs: Table)

  function Fetched(e: Env, id: string, s: Shelf, rows: seq<SrcRow>, now: int): seq<SrcRow> {
    if e.query.batchSize <= 0 then [] else Fetch(e.query, rows, LoadMark(s.states, id), now)
  }

  /** What a poll leaves behind. */
  function Poll(e: Env, id: string, s: Shelf, rows: seq<SrcRow>, now: int, f: Fault): Shelf {
    var out := Fetched(e, id, s, rows, now);
    if f.AtLoad? || f.AtFetch? || out == [] then s else Deliver(e, id, s, out, f)
  }

  /** The part of a poll that writes: the jobs of the batch, then the watermark. */
  function Deliver(e: Env, id: string, s: Shelf, out: seq<SrcRow>, f: Fault): Shelf
    requires out != []
  {
    if f == AtEnqueue(false) then s
    else
      var s' := s.(jobs := InsertRows(s.jobs, Specs(e, out)));
      if f == AtEnqueue(true) || f == AtSave(false) then s'
      else s'.(states := SaveMark(s.states, id, MarkOf(out[|out| - 1])))
  }

  class Poller {
    const env: Env
    const sourceId: string
    var states: map<string, Stored>
    var jobs: Table

    constructor (env: Env, sourceId: string, states: map<string, Stored>, jobs: Table)
      ensures this.sourceId == sourceId && Value() == Shelf(states, jobs)
      ensures this.env == env
    {
      this.env, this.sourceId, this.states, this.jobs := env, sourceId, states, jobs;
    }

    function Value(): Shelf
      reads this
    {
      Shelf(states, jobs)
    }

    /** The fields of a fetched row, column by column. */
    method ReadFields(r: SrcRow) returns (fields: map<string, string>)
      ensures fields == Fields(env, r)
      ensures fields.Keys == {env.query.pkColumn, env.query.tsColumn} + SeqSet(env.query.extraColumns)
      ensures fields[env.query.pkColumn] == Itoa(r.pk)
      ensures env.query.tsColumn != env.query.pkColumn ==> fields[env.query.tsColumn] == env.formatTs(r.ts)
      ensures forall c | c in fields && c != env.query.pkColumn && c != env.query.tsColumn ::
                fields[c] == if c in r.columns then r.columns[c] else ""
    {
      var cols := SelectedColumns(env.query);
      fields := map[];
      for i := 0 to |cols|
        invariant fields.Keys == SeqSet(cols[..i]) && forall c | c in fields :: fields[c] == FieldText(env, r, c)
      {
        assert cols[..i + 1] == cols[..i] + [cols[i]];
        fields := fields[cols[i] := FieldText(env, r, cols[i])];
      }
      assert cols[..|cols|] == cols;
    }

    /** Renders the rows, skipping the ones that cannot be rendered. */
    method Render(rows: seq<SrcRow>) returns (specs: seq<JobSpec>)
      ensures specs == Specs(env, rows)
    {
      specs := [];
      for i := 0 to |rows|
        invariant specs == Specs(env, rows[..i])
      {
        var r := rows[i];
        assert rows[..i + 1][..i] == rows[..i];
        var fields := ReadFields(r);
        var dst := env.renderDst(fields);
        if dst.None? {
          continue;
        }
        var src := env.renderSrc(fields);
        if src.None? {
          continue;
        }
        specs := specs + [JobSpec(TraceID(env.query.table, Itoa(r.pk)), src.value, dst.value,
                                  env.srcProtocol, env.dstProtocol)];
      }
      assert rows[..|rows|] == rows;
    }

    method EnqueueBatch(specs: seq<JobSpec>) returns (n: nat)
      modifies this`jobs
      ensures Value() == old(Value()).(jobs := InsertRows(old(jobs), specs)) && n == RowsAffected(old(jobs), specs)
    {
      if |specs| == 0 {
        KeysHead(specs);
        InsertAgain(jobs, specs);
        return 0;
      }
      var text, args := BuildInsert(specs);
      var rows := BoundRows(|specs|, args);
      n := RowsAffected(jobs, rows);
      jobs := InsertRows(jobs, rows);
    }

    method RunOnce(rows: seq<SrcRow>, now: int, f: Fault) returns (n: nat, ok: bool)
      modifies this`states, this`jobs
      ensures Value() == Poll(env, sourceId, old(Value()), rows, now, f)
      ensures ok <==> && env.query.batchSize > 0 && !f.AtLoad? && !f.AtFetch?
                      && (f.NoFault? || Fetched(env, sourceId, old(Value()), rows, now) == [])
      ensures n == if f.AtLoad? || f.AtFetch? || f.AtEnqueue? then 0
                   else RowsAffected(old(jobs), Specs(env, Fetched(env, sourceId, old(Value()), rows, now)))
    {
      if f.AtLoad? {
        return 0, false;
      }
      var m := LoadMark(states, sourceId);
      if f.AtFetch? || env.query.batchSize <= 0 {
        KeysHead(Specs(env, []));
        return 0, false;
      }
      var out := Fetch(env.query, rows, m, now);
      if |out| == 0 {
        KeysHead(Specs(env, out));
        return 0, true;
      }
      n, ok := DeliverBatch(out, f);
    }

    method DeliverBatch(out: seq<SrcRow>, f: Fault) returns (n: nat, ok: bool)
      requires out != [] && !f.AtLoad? && !f.AtFetch?
      modifies this`states, this`jobs
      ensures Value() == Deliver(env, sourceId, old(Value()), out, f)
      ensures ok <==> f.NoFault?
      ensures n == if f.AtEnqueue? then 0 else RowsAffected(old(jobs), Specs(env, out))
    {
      var specs := Render(out);
      if f == AtEnqueue(false) {
        return 0, false;
      }
      n := EnqueueBatch(specs);
      if f == AtEnqueue(true) {
        return 0, false;
      }
      if f == AtSave(false) {
        return n, false;
      }
      SaveLast(out[|out| - 1]);
      return n, f.NoFault?;
    }

    method SaveLast(last: SrcRow)
      modifies this`states
      ensures Value() == old(Value()).(states := SaveMark(old(states), sourceId, MarkOf(last)))
    {
      states := SaveMark(states, sourceId, MarkOf(last));
    }
  }

  // ---- failed polls -------------------------------------------------------------------------

  lemma {:induction false} SpecsAppend(e: Env, a: seq<SrcRow>, b: seq<SrcRow>)
    ensures Specs(e, a + b) == Specs(e, a) + Specs(e, b)
    decreases |b|
  {
    if |b| == 0 {
      assert a + b == a;
    } else {
      SpecsAppend(e, a, b[..|b| - 1]);
      assert (a + b)[..|a + b| - 1] == a + b[..|b| - 1];
    }
  }

  /** A batch that was enqueued without its watermark being saved is enqueued again, as the start of another. */
  lemma InsertedAgain(e: Env, jobs: Table, batch: seq<SrcRow>, out: seq<SrcRow>)
    requires batch <= out
    ensures InsertRows(InsertRows(jobs, Specs(e, batch)), Specs(e, out)) == InsertRows(jobs, Specs(e, out))
  {
    SpecsAppend(e, batch, out[|batch|..]);
    assert batch + out[|batch|..] == out;
    InsertThenMore(jobs, Specs(e, batch), Specs(e, out));
  }

  /** On an unchanged table a later poll from the same watermark fetches the batch again, and perhaps more. */
  lemma FetchedAgain(e: Env, id: string, s: Shelf, rows: seq<SrcRow>, now: int, later: int)
    requires DistinctKeys(rows) && now <= later
    ensures Fetched(e, id, s, rows, now) <= Fetched(e, id, s, rows, later)
  {
    if Fetched(e, id, s, rows, now) != [] {
      var m := LoadMark(s.states, id);
      FetchedIntact(e.query, rows, m, now, later);
      FetchExtends(e.query, rows, m, later, Fetch(e.query, rows, m, now));
    }
  }

  lemma NothingInserted(e: Env, jobs: Table)
    ensures InsertRows(jobs, Specs(e, [])) == jobs
  {
    KeysHead(Specs(e, []));
    InsertAgain(jobs, Specs(e, []));
  }

  /** A poll depends on the job table only through what its batch makes of it. */
  lemma SamePoll(e: Env, id: string, s: Shelf, jobs: Table, rows: seq<SrcRow>, now: int)
    requires Fetched(e, id, s, rows, now) != []
    requires var specs := Specs(e, Fetched(e, id, s, rows, now)); InsertRows(jobs, specs) == InsertRows(s.jobs, specs)
    ensures Poll(e, id, s.(jobs := jobs), rows, now, NoFault) == Poll(e, id, s, rows, now, NoFault)
  {
    assert Fetched(e, id, s.(jobs := jobs), rows, now) == Fetched(e, id, s, rows, now);
  }

  lemma EnqueuedThenClean(e: Env, id: string, s: Shelf, rows: seq<SrcRow>, now: int, later: int)
    requires DistinctKeys(rows) && now <= later
    ensures var s' := s.(jobs := InsertRows(s.jobs, Specs(e, Fetched(e, id, s, rows, now))));
            Poll(e, id, s', rows, later, NoFault) == Poll(e, id, s, rows, later, NoFault)
  {
    var batch := Fetched(e, id, s, rows, now);
    if batch == [] {
      NothingInserted(e, s.jobs);
    } else {
      FetchedAgain(e, id, s, rows, now, later);
      InsertedAgain(e, s.jobs, batch, Fetched(e, id, s, rows, later));
      SamePoll(e, id, s, InsertRows(s.jobs, Specs(e, batch)), rows, later);
    }
  }

  /** A poll that failed anywhere before its watermark was saved, followed at any later time by a clean poll
      of the same rows, leaves exactly what the clean poll alone would have left; one whose save was
      committed is itself a clean poll. */
  lemma FailedThenClean(e: Env, id: string, s: Shelf, rows: seq<SrcRow>, now: int, later: int, f: Fault)
    requires DistinctKeys(rows) && now <= later
    ensures f == AtSave(true) ==> Poll(e, id, s, rows, now, f) == Poll(e, id, s, rows, now, NoFault)
    ensures f != AtSave(true) && !f.NoFault? ==>
              Poll(e, id, Poll(e, id, s, rows, now, f), rows, later, NoFault) == Poll(e, id, s, rows, later, NoFault)
  {
    EnqueuedThenClean(e, id, s, rows, now, later);
  }
}
