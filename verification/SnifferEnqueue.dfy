/** Idempotent enqueueing: row by row, and as one multi-row statement. */
module SnifferEnqueue {
  import opened Common
  import opened Decimal
  import opened JobTable
  import LeaseProtocol

  /** UNIQUE (trace_id, dst) */
  datatype Key = Key(traceId: string, dst: string)

  type Table = map<Key, JobSpec>

  function KeyOf(j: JobSpec): Key {
    Key(j.traceId, j.dst)
  }

  // ---- one row at a time -------------------------------------------------------

  function Enqueue1(t: Table, j: JobSpec): Table {
    if KeyOf(j) in t then t else t[KeyOf(j) := j]
  }

  function EnqueueAll(t: Table, specs: seq<JobSpec>): Table {
    if |specs| == 0 then t else Enqueue1(EnqueueAll(t, specs[..|specs| - 1]), specs[|specs| - 1])
  }

  /** How many of the single enqueues report inserted = true. */
  function InsertedAll(t: Table, specs: seq<JobSpec>): nat {
    if |specs| == 0 then 0
    else
      var front := specs[..|specs| - 1];
      InsertedAll(t, front) + (if KeyOf(specs[|specs| - 1]) in EnqueueAll(t, front) then 0 else 1)
  }

  // ---- the multi-row statement -----------------------------------------------------

  function Keys(specs: seq<JobSpec>): set<Key> {
    set j | j in specs :: KeyOf(j)
  }

  /** The first row of the VALUES list with the key. */
  function FirstWith(specs: seq<JobSpec>, k: Key): (j: JobSpec)
    requires k in Keys(specs)
    ensures KeyOf(j) == k && j in specs
  {
    KeysHead(specs);
    if KeyOf(specs[0]) == k then specs[0] else FirstWith(specs[1..], k)
  }

  /** INSERT ... VALUES ... ON CONFLICT DO NOTHING: each free key gets its first row. */
  function InsertRows(t: Table, specs: seq<JobSpec>): Table {
    t + map k | k in Keys(specs) - t.Keys :: FirstWith(specs, k)
  }

  /** The rows affected. */
  function RowsAffected(t: Table, specs: seq<JobSpec>): nat {
    |Keys(specs) - t.Keys|
  }

  lemma KeysAppend(specs: seq<JobSpec>, j: JobSpec)
    ensures Keys(specs + [j]) == Keys(specs) + {KeyOf(j)}
  {
  }

  lemma {:induction false} FirstAppend(specs: seq<JobSpec>, j: JobSpec, k: Key)
    requires k in Keys(specs + [j])
    ensures FirstWith(specs + [j], k) == if k in Keys(specs) then FirstWith(specs, k) else j
  {
    KeysAppend(specs, j);
    if |specs| > 0 && KeyOf(specs[0]) != k {
      assert (specs + [j])[1..] == specs[1..] + [j];
      KeysHead(specs);
      KeysAppend(specs[1..], j);
      FirstAppend(specs[1..], j, k);
    }
  }

  lemma KeysConcat(a: seq<JobSpec>, b: seq<JobSpec>)
    ensures Keys(a + b) == Keys(a) + Keys(b)
  {
    assert forall x :: x in a + b <==> x in a || x in b;
  }

  /** The first row with a key in a longer list. */
  lemma {:induction false} FirstConcat(a: seq<JobSpec>, b: seq<JobSpec>, k: Key)
    requires k in Keys(a + b)
    ensures k in Keys(a) ==> FirstWith(a + b, k) == FirstWith(a, k)
    ensures k !in Keys(a) ==> k in Keys(b) && FirstWith(a + b, k) == FirstWith(b, k)
    decreases |a|
  {
    KeysConcat(a, b);
    KeysHead(a);
    if |a| == 0 {
      assert a + b == b;
    } else {
      assert (a + b)[0] == a[0] && (a + b)[1..] == a[1..] + b;
      if KeyOf(a[0]) != k {
        KeysConcat(a[1..], b);
        FirstConcat(a[1..], b, k);
      }
    }
  }

  lemma KeysHead(specs: seq<JobSpec>)
    ensures specs == [] <==> Keys(specs) == {}
    ensures specs != [] ==> Keys(specs) == {KeyOf(specs[0])} + Keys(specs[1..])
  {
    if specs != [] {
      assert KeyOf(specs[0]) in Keys(specs);
      assert specs == [specs[0]] + specs[1..];
      assert forall x :: x in specs <==> x == specs[0] || x in specs[1..];
    }
  }

  lemma BatchTableStep(t: Table, front: seq<JobSpec>, j: JobSpec)
    ensures InsertRows(t, front + [j]) == Enqueue1(InsertRows(t, front), j)
  {
    var a, b := InsertRows(t, front + [j]), Enqueue1(InsertRows(t, front), j);
    KeysAppend(front, j);
    forall k ensures (k in a <==> k in b) && (k in a ==> a[k] == b[k]) {
      if k in Keys(front + [j]) {
        FirstAppend(front, j, k);
      }
    }
  }

  lemma CountNew(a: set<Key>, taken: set<Key>, k: Key)
    ensures |(a + {k}) - taken| == |a - taken| + (if k in taken || k in a then 0 else 1)
  {
    if k in taken || k in a {
      assert (a + {k}) - taken == a - taken;
    } else {
      assert (a + {k}) - taken == (a - taken) + {k};
    }
  }

  lemma BatchCountStep(t: Table, front: seq<JobSpec>, j: JobSpec)
    ensures RowsAffected(t, front + [j]) == RowsAffected(t, front) + (if KeyOf(j) in InsertRows(t, front) then 0 else 1)
  {
    KeysAppend(front, j);
    CountNew(Keys(front), t.Keys, KeyOf(j));
  }

  /** The one statement leaves the same rows, and reports the same number inserted, as enqueueing
      its rows one by one, duplicates within the list included. */
  lemma {:induction false} BatchRefinesRows(t: Table, specs: seq<JobSpec>)
    ensures InsertRows(t, specs) == EnqueueAll(t, specs)
    ensures RowsAffected(t, specs) == InsertedAll(t, specs)
  {
    if |specs| == 0 {
      KeysHead(specs);
      InsertAgain(t, specs);
    } else {
      var front, j := specs[..|specs| - 1], specs[|specs| - 1];
      assert specs == front + [j];
      BatchRefinesRows(t, front);
      BatchTableStep(t, front, j);
      BatchCountStep(t, front, j);
    }
  }

  lemma {:induction false} EnqueueAllAppend(t: Table, a: seq<JobSpec>, b: seq<JobSpec>)
    ensures EnqueueAll(t, a + b) == EnqueueAll(EnqueueAll(t, a), b)
    decreases |b|
  {
    if |b| == 0 {
      assert a + b == a;
    } else {
      var front, j := b[..|b| - 1], b[|b| - 1];
      EnqueueAllAppend(t, a, front);
      assert a + b == (a + front) + [j] && b == front + [j];
    }
  }

  /** Inserting a list after a part of it was inserted is inserting the list. */
  lemma InsertThenMore(t: Table, a: seq<JobSpec>, b: seq<JobSpec>)
    requires a <= b
    ensures InsertRows(InsertRows(t, a), b) == InsertRows(t, b)
  {
    var more := b[|a|..];
    assert b == a + more;
    var t' := InsertRows(t, a);
    BatchRefinesRows(t, b);
    BatchRefinesRows(t, a);
    BatchRefinesRows(t', b);
    BatchRefinesRows(t', a);
    EnqueueAllAppend(t, a, more);
    EnqueueAllAppend(t', a, more);
    InsertTwice(t, a);
  }

  /** Enqueueing again what is already there changes nothing. */
  lemma InsertAgain(t: Table, specs: seq<JobSpec>)
    requires Keys(specs) <= t.Keys
    ensures InsertRows(t, specs) == t && RowsAffected(t, specs) == 0
  {
  }

  lemma InsertTwice(t: Table, specs: seq<JobSpec>)
    ensures InsertRows(InsertRows(t, specs), specs) == InsertRows(t, specs)
  {
  }

  // ---- building the statement ----------------------------------------------------------

  /** The placeholder numbers of the VALUES groups. */
  function Groups(n: nat): seq<seq<nat>> {
    seq(n, i requires 0 <= i => [5 * i + 1, 5 * i + 2, 5 * i + 3, 5 * i + 4, 5 * i + 5])
  }

  function Mark(n: nat): string {
    "$" + Itoa(n)
  }

  /** "($1,$2,$3,$4,$5)" for a group of five placeholders. */
  function GroupText(g: seq<nat>): string
    requires |g| == 5
  {
    "(" + Mark(g[0]) + "," + Mark(g[1]) + "," + Mark(g[2]) + "," + Mark(g[3]) + "," + Mark(g[4]) + ")"
  }

  /** The groups, separated by commas. */
  function ValuesText(groups: seq<seq<nat>>): string
    requires forall i | 0 <= i < |groups| :: |groups[i]| == 5
  {
    if |groups| == 0 then ""
    else
      var front := ValuesText(groups[..|groups| - 1]);
      (if |groups| > 1 then front + "," else front) + GroupText(groups[|groups| - 1])
  }

  /** The fields of the specs, in column order. */
  function Flatten(specs: seq<JobSpec>): seq<string> {
    if |specs| == 0 then []
    else
      var j := specs[|specs| - 1];
      Flatten(specs[..|specs| - 1]) + [j.traceId, j.src, j.dst, j.srcProtocol, j.dstProtocol]
  }

  function InsertText(values: string): string {
    "INSERT INTO transfer_jobs (trace_id, src, dst, src_protocol, dst_protocol) VALUES " + values
    + " ON CONFLICT (trace_id, dst) DO NOTHING"
  }

  /** The row a group denotes when $k is bound to the k-th argument. */
  function Bind(g: seq<nat>, args: seq<string>): JobSpec
    requires |g| == 5 && forall i | 0 <= i < 5 :: 1 <= g[i] <= |args|
  {
    JobSpec(args[g[0] - 1], args[g[1] - 1], args[g[2] - 1], args[g[3] - 1], args[g[4] - 1])
  }

  /** The VALUES list a statement with these groups and arguments stands for. */
  function BoundRows(n: nat, args: seq<string>): seq<JobSpec>
    requires |args| == 5 * n
  {
    seq(n, i requires 0 <= i < n => Bind(Groups(n)[i], args))
  }

  /** strings.Builder after the i-th round of the loop. */
  function WriteGroup(values: string, i: nat): string {
    var n := i * 5;
    (if i > 0 then values + "," else values) + GroupText([n + 1, n + 2, n + 3, n + 4, n + 5])
  }

  lemma ValuesStep(i: nat)
    ensures ValuesText(Groups(i + 1)) == WriteGroup(ValuesText(Groups(i)), i)
  {
    assert Groups(i + 1)[..i] == Groups(i);
    assert Groups(i + 1)[i] == [i * 5 + 1, i * 5 + 2, i * 5 + 3, i * 5 + 4, i * 5 + 5];
  }

  lemma FlattenStep(specs: seq<JobSpec>, i: nat)
    requires i < |specs|
    ensures Flatten(specs[..i + 1])
            == Flatten(specs[..i])
               + [specs[i].traceId, specs[i].src, specs[i].dst, specs[i].srcProtocol, specs[i].dstProtocol]
  {
    assert specs[..i + 1][..i] == specs[..i];
  }

  lemma {:induction false} FlattenAt(specs: seq<JobSpec>, i: nat)
    requires i < |specs|
    ensures |Flatten(specs)| == 5 * |specs|
    ensures Bind(Groups(|specs|)[i], Flatten(specs)) == specs[i]
  {
    var front := specs[..|specs| - 1];
    if i < |front| {
      FlattenAt(front, i);
      assert front[i] == specs[i];
    } else if |front| > 0 {
      FlattenAt(front, 0);
    }
  }

  lemma {:induction false} FlattenLength(specs: seq<JobSpec>)
    ensures |Flatten(specs)| == 5 * |specs|
  {
    if |specs| == 0 {
    } else {
      FlattenLength(specs[..|specs| - 1]);
    }
  }

  lemma FlattenBound(specs: seq<JobSpec>)
    ensures |Flatten(specs)| == 5 * |specs| && BoundRows(|specs|, Flatten(specs)) == specs
  {
    FlattenLength(specs);
    var rows := BoundRows(|specs|, Flatten(specs));
    forall i | 0 <= i < |specs| ensures rows[i] == specs[i] {
      FlattenAt(specs, i);
    }
  }

  /** The VALUES list and its arguments, group by group. */
  method BuildValues(specs: seq<JobSpec>) returns (values: string, args: seq<string>)
    ensures values == ValuesText(Groups(|specs|)) && args == Flatten(specs)
  {
    values, args := "", [];
    for i := 0 to |specs|
      invariant values == ValuesText(Groups(i))
      invariant args == Flatten(specs[..i])
    {
      values := WriteGroup(values, i);
      ValuesStep(i);
      var j := specs[i];
      args := args + [j.traceId, j.src, j.dst, j.srcProtocol, j.dstProtocol];
      FlattenStep(specs, i);
    }
    assert specs[..|specs|] == specs;
  }

  /** The text and the arguments of the statement: its groups, bound to the arguments, are exactly
      the given specs in the given order. */
  method BuildInsert(specs: seq<JobSpec>) returns (text: string, args: seq<string>)
    ensures text == InsertText(ValuesText(Groups(|specs|)))
    ensures |args| == 5 * |specs| && BoundRows(|specs|, args) == specs
  {
    var values;
    values, args := BuildValues(specs);
    text := InsertText(values);
    FlattenBound(specs);
  }

  // ---- the same table inside the lease protocol --------------------------------------------

  function SpecOf(r: Row): JobSpec {
    JobSpec(r.traceId, r.src, r.dst, r.srcProtocol, r.dstProtocol)
  }

  /** `t` lists the rows of the job table by their unique key. */
  ghost predicate Shows(db: Db, t: Table) {
    && (forall id | id in db.jobs ::
          KeyOf(SpecOf(db.jobs[id])) in t && t[KeyOf(SpecOf(db.jobs[id]))] == SpecOf(db.jobs[id]))
    && (forall k | k in t :: exists id | id in db.jobs :: KeyOf(SpecOf(db.jobs[id])) == k)
  }

  lemma InsertShows(db: Db, t: Table, j: JobSpec, maxAttempts: int)
    requires LeaseProtocol.Keyed(db) && Shows(db, t)
    ensures LeaseProtocol.Keyed(InsertJob(db, j, maxAttempts)) && Shows(InsertJob(db, j, maxAttempts), Enqueue1(t, j))
  {
    assert KeyTaken(db, j.traceId, j.dst) <==> KeyOf(j) in t;
    var db', t' := InsertJob(db, j, maxAttempts), Enqueue1(t, j);
    forall k | k in t' ensures exists id | id in db'.jobs :: KeyOf(SpecOf(db'.jobs[id])) == k {
      if k in t {
        var id :| id in db.jobs && KeyOf(SpecOf(db.jobs[id])) == k;
        assert id in db'.jobs && db'.jobs[id] == db.jobs[id];
      } else {
        assert SpecOf(db'.jobs[db.nextId]) == j;
      }
    }
  }

  /** The sniffer's insert step of the lease protocol is the multi-row statement. */
  lemma {:induction false} BatchShows(db: Db, t: Table, specs: seq<JobSpec>, k: nat)
    requires LeaseProtocol.Keyed(db) && k <= |specs| && Shows(db, EnqueueAll(t, specs[..k]))
    ensures Shows(InsertBatch(db, specs[k..]), InsertRows(t, specs))
    decreases |specs| - k
  {
    if k == |specs| {
      assert specs[..k] == specs;
      BatchRefinesRows(t, specs);
    } else {
      var db' := InsertJob(db, specs[k], DEFAULT_MAX_ATTEMPTS);
      InsertShows(db, EnqueueAll(t, specs[..k]), specs[k], DEFAULT_MAX_ATTEMPTS);
      assert specs[..k + 1][..k] == specs[..k];
      assert specs[k..][1..] == specs[k + 1..];
      BatchShows(db', t, specs, k + 1);
    }
  }
}
