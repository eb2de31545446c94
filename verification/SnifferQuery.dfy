/**
 * The sniffer's source query: a window over the source table above the watermark and below the
 * bias, ordered by (timestamp, primary key), limited to one batch. Timestamps are microseconds
 * since year 1, the zero value of time.Time.
 */
module SnifferQuery {
  import opened Common
  import opened Decimal

  /** A row: its key, its timestamp, and its other columns as text, NULL ones left out. */
  datatype SrcRow = SrcRow(pk: int, ts: int, columns: map<string, string>)

  /** The watermark as loaded: pk "" means no carried-over key. */
  datatype Mark = Mark(ts: int, pk: string)

  /** Durations in nanoseconds. */
  datatype Query = Query(table: string, batchSize: int, bias: int, pkColumn: string, tsColumn: string,
                         extraColumns: seq<string>)

  /** int(BiasDuration.Seconds()), as an SQL interval in microseconds. */
  function BiasMicros(q: Query): int {
    (if q.bias >= 0 then q.bias / 1_000_000_000 else -(-q.bias / 1_000_000_000)) * 1_000_000
  }

  predicate Less(a: SrcRow, b: SrcRow) {
    a.ts < b.ts || (a.ts == b.ts && a.pk < b.pk)
  }

  /** The two window predicates on the watermark. */
  predicate Above(r: SrcRow, m: Mark) {
    if m.pk == "" then r.ts > m.ts
    else r.ts > m.ts || (r.ts == m.ts && r.pk > Atoi(m.pk))
  }

  predicate Settled(r: SrcRow, now: int, bias: int) {
    r.ts <= now - bias
  }

  predicate Eligible(r: SrcRow, m: Mark, now: int, bias: int) {
    Above(r, m) && Settled(r, now, bias)
  }

  function MarkOf(r: SrcRow): (m: Mark)
    ensures m.pk != ""
    ensures forall x: SrcRow :: Above(x, m) <==> Less(r, x)
  {
    ItoaRoundTrip(r.pk);
    Mark(r.ts, Itoa(r.pk))
  }

  function Window(rows: seq<SrcRow>, m: Mark, now: int, bias: int): seq<SrcRow> {
    if |rows| == 0 then []
    else
      var rest := Window(rows[1..], m, now, bias);
      if Eligible(rows[0], m, now, bias) then [rows[0]] + rest else rest
  }

  function Insert(r: SrcRow, s: seq<SrcRow>): seq<SrcRow> {
    if |s| == 0 || Less(r, s[0]) then [r] + s else [s[0]] + Insert(r, s[1..])
  }

  /** ORDER BY ts, pk */
  function Sort(s: seq<SrcRow>): seq<SrcRow> {
    if |s| == 0 then [] else Insert(s[0], Sort(s[1..]))
  }

  function Take(s: seq<SrcRow>, n: nat): seq<SrcRow> {
    if |s| <= n then s else s[..n]
  }

  /** The rows a query with a positive batch size returns. */
  function Fetch(q: Query, rows: seq<SrcRow>, m: Mark, now: int): seq<SrcRow>
    requires q.batchSize > 0
  {
    Take(Sort(Window(rows, m, now, BiasMicros(q))), q.batchSize)
  }

  predicate Ordered(s: seq<SrcRow>) {
    forall i, j | 0 <= i < j < |s| :: Less(s[i], s[j])
  }

  predicate DistinctKeys(rows: seq<SrcRow>) {
    forall i, j | 0 <= i < j < |rows| :: rows[i].pk != rows[j].pk
  }

  // ---- filtering ------------------------------------------------------------------

  lemma {:induction false} WindowMembers(rows: seq<SrcRow>, m: Mark, now: int, bias: int)
    ensures forall r :: r in Window(rows, m, now, bias) <==> r in rows && Eligible(r, m, now, bias)
  {
    if |rows| == 0 {
    } else {
      WindowMembers(rows[1..], m, now, bias);
      assert rows == [rows[0]] + rows[1..];
    }
  }

  lemma {:induction false} WindowDistinct(rows: seq<SrcRow>, m: Mark, now: int, bias: int)
    requires DistinctKeys(rows)
    ensures DistinctKeys(Window(rows, m, now, bias))
  {
    if |rows| == 0 {
    } else {
      var rest := Window(rows[1..], m, now, bias);
      WindowDistinct(rows[1..], m, now, bias);
      WindowMembers(rows[1..], m, now, bias);
      forall i | 0 <= i < |rest| ensures rest[i].pk != rows[0].pk {
        assert rest[i] in rows[1..];
      }
    }
  }

  // ---- sorting ----------------------------------------------------------------------

  lemma {:induction false} InsertMembers(r: SrcRow, s: seq<SrcRow>)
    ensures forall x :: x in Insert(r, s) <==> x == r || x in s
    ensures |Insert(r, s)| == |s| + 1
  {
    if |s| > 0 && !Less(r, s[0]) {
      InsertMembers(r, s[1..]);
      assert s == [s[0]] + s[1..];
    }
  }

  lemma {:induction false} InsertOrdered(r: SrcRow, s: seq<SrcRow>)
    requires Ordered(s) && forall i | 0 <= i < |s| :: s[i].pk != r.pk
    ensures Ordered(Insert(r, s))
  {
    if |s| > 0 && !Less(r, s[0]) {
      var t := s[1..];
      InsertOrdered(r, t);
      InsertMembers(r, t);
      var out := Insert(r, t);
      forall j | 0 <= j < |out| ensures Less(s[0], out[j]) {
        assert out[j] in out;
        if out[j] in t {
          var k :| 0 <= k < |t| && t[k] == out[j];
          assert s[k + 1] == out[j];
        }
      }
    }
  }

  lemma {:induction false} SortMembers(s: seq<SrcRow>)
    ensures forall x :: x in Sort(s) <==> x in s
    ensures |Sort(s)| == |s|
  {
    if |s| == 0 {
    } else {
      SortMembers(s[1..]);
      InsertMembers(s[0], Sort(s[1..]));
      assert s == [s[0]] + s[1..];
    }
  }

  lemma {:induction false} SortOrdered(s: seq<SrcRow>)
    requires DistinctKeys(s)
    ensures Ordered(Sort(s))
  {
    if |s| == 0 {
    } else {
      SortOrdered(s[1..]);
      SortMembers(s[1..]);
      var t := Sort(s[1..]);
      forall i | 0 <= i < |t| ensures t[i].pk != s[0].pk {
        assert t[i] in s[1..];
      }
      InsertOrdered(s[0], t);
    }
  }

  /** An ordered list is determined by its members. */
  lemma {:induction false} OrderedUnique(a: seq<SrcRow>, b: seq<SrcRow>)
    requires Ordered(a) && Ordered(b) && forall x :: x in a <==> x in b
    ensures a == b
    decreases |a|
  {
    assert |a| > 0 ==> a[0] in b;
    assert |b| > 0 ==> b[0] in a;
    if |a| > 0 {
      assert a[0] == b[0];
      forall x ensures x in a[1..] <==> x in b[1..] {
        assert x in a <==> x == a[0] || x in a[1..];
        assert x in b <==> x == b[0] || x in b[1..];
        assert a[0] !in a[1..] && b[0] !in b[1..];
      }
      OrderedUnique(a[1..], b[1..]);
    }
  }

  // ---- what one fetch returns -----------------------------------------------------------

  /** The statement's two conditions: later than the watermark, which has no key on a first run, and settled. */
  predicate InWindow(q: Query, r: SrcRow, m: Mark, now: int) {
    && (r.ts > m.ts || (m.pk != "" && r.ts == m.ts && r.pk > Atoi(m.pk)))
    && now - r.ts >= BiasMicros(q)
  }

  /** A fetch returns, in order, the first eligible rows: everything eligible at or below its last
      row is in it, and it stops short of a full batch only when nothing eligible is left out. */
  lemma FetchIsFirstEligible(q: Query, rows: seq<SrcRow>, m: Mark, now: int)
    requires q.batchSize > 0 && DistinctKeys(rows)
    ensures var out := Fetch(q, rows, m, now);
            && Ordered(out) && |out| <= q.batchSize
            && (forall r | r in out :: r in rows && InWindow(q, r, m, now))
            && (forall r | r in rows && InWindow(q, r, m, now) && r !in out ::
                  |out| == q.batchSize && Less(out[|out| - 1], r))
  {
    var bias := BiasMicros(q);
    var w := Window(rows, m, now, bias);
    WindowMembers(rows, m, now, bias);
    WindowDistinct(rows, m, now, bias);
    SortMembers(w);
    SortOrdered(w);
    var all := Sort(w);
    var out := Fetch(q, rows, m, now);
    assert forall i | 0 <= i < |out| :: out[i] == all[i];
    assert forall i | 0 <= i < |out| :: all[i] in out;
    forall r | r in out ensures r in rows && Eligible(r, m, now, bias) {
      assert r in all;
    }
    forall r | r in rows && Eligible(r, m, now, bias) && r !in out
      ensures |out| == q.batchSize && Less(out[|out| - 1], r)
    {
      assert r in all;
      var i :| 0 <= i < |all| && all[i] == r;
    }
  }

  // ---- the bias ------------------------------------------------------------------------------

  /** A fetch from a source with one settled row. */
  lemma FetchesTheOne(q: Query, b: SrcRow, m: Mark, now: int)
    requires q.batchSize > 0 && Eligible(b, m, now, BiasMicros(q))
    ensures Fetch(q, [b], m, now) == [b]
  {
    assert Window([b], m, now, BiasMicros(q)) == [b];
    assert Sort([b]) == [b];
  }

  /** The interval is the configured bias in whole seconds, the rest cut off towards zero. */
  lemma BiasMeaning(q: Query)
    ensures BiasMicros(q) % 1_000_000 == 0
    ensures q.bias >= 0 ==> BiasMicros(q) * 1000 <= q.bias < BiasMicros(q) * 1000 + 1_000_000_000
    ensures q.bias < 0 ==> BiasMicros(q) * 1000 - 1_000_000_000 < q.bias <= BiasMicros(q) * 1000
  {
  }

  /** No row is ever fetched that is younger than the configured bias, if and only if that bias is a whole
      number of seconds, or negative. */
  lemma BiasHonoured(q: Query)
    requires q.batchSize > 0
    ensures (forall rows, m, now, r | DistinctKeys(rows) && r in Fetch(q, rows, m, now) ::
               (now - r.ts) * 1000 >= q.bias)
            <==> q.bias < 0 || q.bias % 1_000_000_000 == 0
  {
    BiasMeaning(q);
    if q.bias < 0 || q.bias % 1_000_000_000 == 0 {
      forall rows, m, now, r | DistinctKeys(rows) && r in Fetch(q, rows, m, now) ensures (now - r.ts) * 1000 >= q.bias {
        FetchIsFirstEligible(q, rows, m, now);
      }
    } else {
      var r, m, now := SrcRow(1, 1, map[]), Mark(0, ""), 1 + BiasMicros(q);
      FetchesTheOne(q, r, m, now);
      assert DistinctKeys([r]) && r in Fetch(q, [r], m, now);
    }
  }

  predicate OldEnough(q: Query, r: SrcRow, now: int) {
    (now - r.ts) * 1000 >= q.bias
  }

  /** Every row above the watermark that is as old as the configured bias is eligible, if and only if that bias is
      not negative, or a whole number of seconds (up to the microsecond the database resolves). */
  lemma OldEnoughIsEligible(q: Query)
    ensures (forall r, m, now | Above(r, m) && OldEnough(q, r, now) :: Eligible(r, m, now, BiasMicros(q)))
            <==> q.bias >= 0 || -q.bias % 1_000_000_000 < 1000
  {
    BiasMeaning(q);
    if q.bias < 0 && -q.bias % 1_000_000_000 >= 1000 {
      var r, m, now := SrcRow(1, 1, map[]), Mark(0, ""), BiasMicros(q);
      assert Above(r, m) && OldEnough(q, r, now) && !Eligible(r, m, now, BiasMicros(q));
    }
  }

  /** A lag stays below the interval exactly when the configured bias reaches the next whole second after it. */
  lemma BiasCovers(q: Query, lag: nat)
    ensures lag < BiasMicros(q) <==> (lag / 1_000_000 + 1) * 1_000_000_000 <= q.bias
  {
    BiasMeaning(q);
  }

  // ---- keyset pagination ---------------------------------------------------------------------

  /** The one sorted scan that paging is meant to cut up. */
  function Scan(q: Query, rows: seq<SrcRow>, m: Mark, now: int): seq<SrcRow> {
    Sort(Window(rows, m, now, BiasMicros(q)))
  }

  lemma ScanMembers(q: Query, rows: seq<SrcRow>, m: Mark, now: int)
    requires DistinctKeys(rows)
    ensures Ordered(Scan(q, rows, m, now))
    ensures forall r :: r in Scan(q, rows, m, now) <==> r in rows && Eligible(r, m, now, BiasMicros(q))
  {
    WindowMembers(rows, m, now, BiasMicros(q));
    WindowDistinct(rows, m, now, BiasMicros(q));
    SortMembers(Window(rows, m, now, BiasMicros(q)));
    SortOrdered(Window(rows, m, now, BiasMicros(q)));
  }

  /** Restarting the scan from the mark of its row k leaves exactly the rows after it. */
  lemma ScanResumes(q: Query, rows: seq<SrcRow>, m: Mark, now: int, k: nat)
    requires DistinctKeys(rows) && k < |Scan(q, rows, m, now)|
    ensures Scan(q, rows, MarkOf(Scan(q, rows, m, now)[k]), now) == Scan(q, rows, m, now)[k + 1..]
  {
    var all := Scan(q, rows, m, now);
    var m' := MarkOf(all[k]);
    ScanMembers(q, rows, m, now);
    ScanMembers(q, rows, m', now);
    assert all[k] in all;
    forall i | k < i < |all| ensures all[i] in all[k + 1..] {
      assert all[k + 1..][i - k - 1] == all[i];
    }
    forall r ensures r in Scan(q, rows, m', now) <==> r in all[k + 1..] {
      if r in all[k + 1..] {
        var i :| 0 <= i < |all[k + 1..]| && all[k + 1..][i] == r;
        assert all[k + 1 + i] == r && r in all && Less(all[k], r);
      } else if r in all {
        var i :| 0 <= i < |all| && all[i] == r;
        assert i == k || Less(r, all[k]);
      }
    }
    OrderedUnique(Scan(q, rows, m', now), all[k + 1..]);
  }

  /** A list that is ordered, taken from another ordered list and complete up to its last row starts it. */
  lemma {:induction false} OrderedPrefix(a: seq<SrcRow>, all: seq<SrcRow>)
    requires Ordered(a) && Ordered(all) && forall x | x in a :: x in all
    requires forall x, y | x in all && x !in a && y in a :: Less(y, x)
    ensures a <= all
    decreases |a|
  {
    if |a| == 0 {
    } else {
      assert a[0] in a && a[0] in all && all[0] in all;
      assert a[0] == all[0];
      assert forall x | x in a[1..] :: x in all[1..] by {
        forall x | x in a[1..] ensures x in all[1..] {
          assert x in a && x != a[0];
        }
      }
      forall x, y | x in all[1..] && x !in a[1..] && y in a[1..] ensures Less(y, x) {
        assert x in all && y in a && x != all[0];
      }
      OrderedPrefix(a[1..], all[1..]);
    }
  }

  /** A batch that is still in the source, all of it eligible and complete up to its last row. */
  ghost predicate Intact(q: Query, rows: seq<SrcRow>, m: Mark, now: int, batch: seq<SrcRow>) {
    && batch != [] && Ordered(batch)
    && (forall r | r in batch :: r in rows && Eligible(r, m, now, BiasMicros(q)))
    && (forall r | r in rows && Above(r, m) && !Less(batch[|batch| - 1], r) :: r in batch)
  }

  /** Such a batch is fetched again, perhaps with more rows after it. */
  lemma FetchExtends(q: Query, rows: seq<SrcRow>, m: Mark, now: int, batch: seq<SrcRow>)
    requires q.batchSize > 0 && DistinctKeys(rows) && Intact(q, rows, m, now, batch) && |batch| <= q.batchSize
    ensures batch <= Fetch(q, rows, m, now)
  {
    var all := Scan(q, rows, m, now);
    ScanMembers(q, rows, m, now);
    forall x, y | x in all && x !in batch && y in batch ensures Less(y, x) {
      assert Less(batch[|batch| - 1], x);
      var i :| 0 <= i < |batch| && batch[i] == y;
    }
    OrderedPrefix(batch, all);
  }

  /** What was fetched is intact then, and stays so on an unchanged table as the clock goes on. */
  lemma FetchedIntact(q: Query, rows: seq<SrcRow>, m: Mark, now: int, later: int)
    requires q.batchSize > 0 && DistinctKeys(rows) && now <= later && Fetch(q, rows, m, now) != []
    ensures Intact(q, rows, m, later, Fetch(q, rows, m, now)) && |Fetch(q, rows, m, now)| <= q.batchSize
  {
    FetchIsFirstEligible(q, rows, m, now);
    var batch := Fetch(q, rows, m, now);
    assert batch[|batch| - 1] in batch;
  }

  function Concat(pages: seq<seq<SrcRow>>): seq<SrcRow> {
    if |pages| == 0 then [] else Concat(pages[..|pages| - 1]) + pages[|pages| - 1]
  }

  /** n rows in pages of b, the last one perhaps shorter. */
  function CeilDiv(n: nat, b: int): nat
    requires b > 0
  {
    if n == 0 then 0 else 1 + CeilDiv(n - Min(n, b), b)
  }

  /** That is n / b rounded up. */
  lemma {:induction false} CeilMeaning(n: nat, b: int)
    requires b > 0
    ensures n <= CeilDiv(n, b) * b < n + b
  {
    if n == 0 {
    } else if n <= b {
      assert CeilDiv(n, b) == 1 + CeilDiv(0, b) == 1;
    } else {
      CeilMeaning(n - b, b);
      assert (1 + CeilDiv(n - b, b)) * b == b + CeilDiv(n - b, b) * b;
    }
  }

  lemma PageMoves(all: seq<SrcRow>, done: nat, n: nat)
    requires done + n <= |all|
    ensures all[..done] + all[done..][..n] == all[..done + n] && all[done..][n..] == all[done + n..]
  {
  }

  /** `pages` are the first `done` rows of the scan, and `last` is where it resumes. */
  ghost predicate Paged(q: Query, rows: seq<SrcRow>, from: Mark, now: int, pages: seq<seq<SrcRow>>, last: Mark,
                        done: nat)
    requires q.batchSize > 0
  {
    var all := Scan(q, rows, from, now);
    && done <= |all| && Concat(pages) == all[..done] && Scan(q, rows, last, now) == all[done..]
    && (forall i | 0 <= i < |pages| :: 0 < |pages[i]| <= q.batchSize)
    && |pages| + CeilDiv(|all| - done, q.batchSize) == CeilDiv(|all|, q.batchSize)
  }

  lemma PageAdded(q: Query, rows: seq<SrcRow>, from: Mark, now: int, pages: seq<seq<SrcRow>>, last: Mark, done: nat)
    requires q.batchSize > 0 && DistinctKeys(rows) && Paged(q, rows, from, now, pages, last, done)
    requires Fetch(q, rows, last, now) != []
    ensures var page := Fetch(q, rows, last, now);
            Paged(q, rows, from, now, pages + [page], MarkOf(page[|page| - 1]), done + |page|)
  {
    var all, page := Scan(q, rows, from, now), Fetch(q, rows, last, now);
    assert page == Take(all[done..], q.batchSize);
    PageMoves(all, done, |page|);
    ScanResumes(q, rows, last, now, |page| - 1);
  }

  /** Polling a fixed table until a poll comes back empty: the pages are consecutive pieces of the
      one sorted scan, and there are ceil(n / batchSize) of them, whatever timestamps tie. */
  method DrainByPages(q: Query, rows: seq<SrcRow>, from: Mark, now: int)
    returns (pages: seq<seq<SrcRow>>, last: Mark)
    requires q.batchSize > 0 && DistinctKeys(rows)
    ensures Concat(pages) == Scan(q, rows, from, now)
    ensures forall i | 0 <= i < |pages| :: 0 < |pages[i]| <= q.batchSize
    ensures |pages| == CeilDiv(|Scan(q, rows, from, now)|, q.batchSize)
    ensures Fetch(q, rows, last, now) == []
  {
    pages, last := [], from;
    ghost var all := Scan(q, rows, from, now);
    ghost var done: nat := 0;
    assert all[0..] == all && all[..0] == [];
    var page := Fetch(q, rows, last, now);
    while page != []
      invariant Paged(q, rows, from, now, pages, last, done) && page == Fetch(q, rows, last, now)
      decreases |all| - done
    {
      PageAdded(q, rows, from, now, pages, last, done);
      pages := pages + [page];
      last := MarkOf(page[|page| - 1]);
      done := done + |page|;
      page := Fetch(q, rows, last, now);
    }
    assert all[..|all|] == all;
  }
}
