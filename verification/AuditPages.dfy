/** Cursor pagination over the audit trail: the in-memory page and the SQL
    fetch-one-more page are the same page, and following the cursors returns what
    matched at the first request, once each, however the trail grows meanwhile. */
module AuditPages {
  import opened Types
  import opened Audit

  datatype Filter = Filter(
    limit: Option<nat>, cursor: Option<nat>, from: Option<nat>, to: Option<nat>,
    subject: Option<string>, cluster: Option<string>, verb: Option<string>, pathPrefix: Option<string>,
    minStatus: Option<nat>, decision: Option<Verdict>, reason: Option<string>)

  const DEFAULT_LIMIT: nat := 100
  const MAX_LIMIT: nat := 1000

  function EffectiveLimit(f: Filter): (n: nat)
    ensures 1 <= n <= MAX_LIMIT
  {
    var n := if f.limit.Some? then f.limit.value else DEFAULT_LIMIT;
    if n < 1 then 1 else if n > MAX_LIMIT then MAX_LIMIT else n
  }

  /** A page has 100 rows unless asked otherwise, and then as many as asked within 1 and 1000. */
  lemma PageSizes(f: Filter)
    ensures f.limit.None? ==> EffectiveLimit(f) == 100
    ensures f.limit == Some(0) ==> EffectiveLimit(f) == 1
    ensures f.limit.Some? && 1 <= f.limit.value <= 1000 ==> EffectiveLimit(f) == f.limit.value
    ensures f.limit.Some? && 1000 < f.limit.value ==> EffectiveLimit(f) == 1000
  {}

  predicate StartsWith(s: string, prefix: string) {
    |prefix| <= |s| && s[..|prefix|] == prefix
  }

  /** Every condition but the pagination. */
  predicate Matches(f: Filter, e: AuditEvent) {
    && (f.from.Some? ==> e.ts >= f.from.value)
    && (f.to.Some? ==> e.ts <= f.to.value)
    && (f.subject.Some? ==> e.subject == f.subject)
    && (f.cluster.Some? ==> e.cluster == f.cluster)
    && (f.verb.Some? ==> e.verb == f.verb)
    && (f.pathPrefix.Some? ==> e.path.Some? && StartsWith(e.path.value, f.pathPrefix.value))
    && (f.minStatus.Some? ==> e.status.Some? && e.status.value >= f.minStatus.value)
    && (f.decision.Some? ==> e.decision == f.decision.value)
    && (f.reason.Some? ==> e.reason == f.reason)
  }

  const NO_FILTER := Filter(None, None, None, None, None, None, None, None, None, None, None)

  /** Without conditions everything matches, and adding one keeps exactly the events
      that meet it: two time bounds, both included; equal subject, cluster, method,
      decision and reason; a path that goes on from the prefix; a status that is
      there and not below. */
  lemma ClausesNarrow(f: Filter, e: AuditEvent, n: nat, s: string, d: Verdict)
    ensures Matches(NO_FILTER, e)
    ensures Matches(f.(from := Some(n)), e) <==> Matches(f.(from := None), e) && n <= e.ts
    ensures Matches(f.(to := Some(n)), e) <==> Matches(f.(to := None), e) && e.ts <= n
    ensures Matches(f.(subject := Some(s)), e) <==> Matches(f.(subject := None), e) && e.subject == Some(s)
    ensures Matches(f.(cluster := Some(s)), e) <==> Matches(f.(cluster := None), e) && e.cluster == Some(s)
    ensures Matches(f.(verb := Some(s)), e) <==> Matches(f.(verb := None), e) && e.verb == Some(s)
    ensures Matches(f.(reason := Some(s)), e) <==> Matches(f.(reason := None), e) && e.reason == Some(s)
    ensures Matches(f.(decision := Some(d)), e) <==> Matches(f.(decision := None), e) && e.decision == d
    ensures Matches(f.(minStatus := Some(n)), e)
      <==> Matches(f.(minStatus := None), e) && exists k | n <= k :: e.status == Some(k)
    ensures Matches(f.(pathPrefix := Some(s)), e)
      <==> Matches(f.(pathPrefix := None), e) && exists rest :: e.path == Some(s + rest)
    ensures Matches(f.(limit := Some(n), cursor := Some(n)), e) <==> Matches(f, e)
  {
    if e.path.Some? && StartsWith(e.path.value, s) {
      assert e.path.value == s + e.path.value[|s|..];
    }
  }

  predicate Picks(f: Filter, cursor: Option<nat>, r: Row) {
    (cursor.Some? ==> r.seqNo < cursor.value) && Matches(f, r.event)
  }

  /** The rows a query is about, newest first. */
  function Matching(rows: seq<Row>, f: Filter, cursor: Option<nat>): seq<Row> {
    if rows == [] then []
    else
      var r, older := rows[|rows| - 1], Matching(rows[..|rows| - 1], f, cursor);
      if Picks(f, cursor, r) then [r] + older else older
  }

  datatype Page = Page(rows: seq<Row>, next: Option<nat>)

  function Cut(rows: seq<Row>, limit: nat): (p: Page)
    requires limit >= 1
  {
    if |rows| > limit then Page(rows[..limit], Some(rows[limit - 1].seqNo)) else Page(rows, None)
  }

  function PageOf(rows: seq<Row>, f: Filter, cursor: Option<nat>): Page {
    Cut(Matching(rows, f, cursor), EffectiveLimit(f))
  }

  /** Filter everything, reverse, truncate. */
  method ListInMemory(rows: seq<Row>, f: Filter) returns (p: Page)
    ensures p == PageOf(rows, f, f.cursor)
  {
    var picked: seq<Row> := [];
    for i := 0 to |rows|
      invariant Reversed(picked) == Matching(rows[..i], f, f.cursor)
    {
      assert rows[..i + 1][..i] == rows[..i];
      if Picks(f, f.cursor, rows[i]) {
        assert (picked + [rows[i]])[..|picked|] == picked;
        picked := picked + [rows[i]];
      }
    }
    assert rows[..|rows|] == rows;
    var page, limit := Reversed(picked), EffectiveLimit(f);
    var next: Option<nat> := None;
    if |page| > limit {
      page := page[..limit];
      next := Some(page[|page| - 1].seqNo);
    }
    return Page(page, next);
  }

  function Reversed(rows: seq<Row>): seq<Row> {
    if rows == [] then [] else [rows[|rows| - 1]] + Reversed(rows[..|rows| - 1])
  }

  // --- The SQL form ---

  /** The WHERE clause over stored columns: bounds are clamped to the signed
      range, and a comparison with NULL is never true. */
  predicate SqlWhere(f: Filter, cursor: Option<nat>, r: Row) {
    var e := r.event;
    && (cursor.Some? ==> r.seqNo < Clamp(cursor.value))
    && (f.from.Some? ==> e.ts >= Clamp(f.from.value))
    && (f.to.Some? ==> e.ts <= Clamp(f.to.value))
    && (f.subject.Some? ==> e.subject.Some? && e.subject.value == f.subject.value)
    && (f.cluster.Some? ==> e.cluster.Some? && e.cluster.value == f.cluster.value)
    && (f.verb.Some? ==> e.verb.Some? && e.verb.value == f.verb.value)
    && (f.pathPrefix.Some? ==> e.path.Some? && Substr(e.path.value, |f.pathPrefix.value|) == f.pathPrefix.value)
    && (f.minStatus.Some? ==> e.status.Some? && e.status.value >= f.minStatus.value)
    && (f.decision.Some? ==> e.decision == f.decision.value)
    && (f.reason.Some? ==> e.reason.Some? && e.reason.value == f.reason.value)
  }

  /** `substr(s, 1, n)`. */
  function Substr(s: string, n: nat): string {
    if n < |s| then s[..n] else s
  }

  predicate BelowSignedMax(rows: seq<Row>) {
    forall i | 0 <= i < |rows| :: rows[i].seqNo < I64_MAX && rows[i].event.ts < I64_MAX
  }

  /** On rows below the signed maximum the two filters pick the same rows, for
      every filter and cursor. */
  lemma WhereAgrees(f: Filter, cursor: Option<nat>, r: Row)
    requires r.seqNo < I64_MAX && r.event.ts < I64_MAX
    ensures SqlWhere(f, cursor, r) <==> Picks(f, cursor, r)
  {
    if f.pathPrefix.Some? && r.event.path.Some? {
      var s, p := r.event.path.value, f.pathPrefix.value;
      assert Substr(s, |p|) == p <==> StartsWith(s, p) by {
        if |p| == |s| {
          assert s[..|p|] == s;
        }
      }
    }
  }

  /** A row at the signed maximum separates them exactly when the cursor or the
      lower time bound lies above it. */
  lemma WhereDiffersIff(f: Filter, cursor: Option<nat>, r: Row)
    requires r.seqNo <= I64_MAX && r.event.ts <= I64_MAX
    requires Matches(f.(from := None), r.event)
    ensures (SqlWhere(f, cursor, r) <==> Picks(f, cursor, r)) <==>
      !( || (cursor.Some? && cursor.value > I64_MAX && r.seqNo == I64_MAX && Matches(f, r.event))
         || (f.from.Some? && f.from.value > I64_MAX && r.event.ts == I64_MAX
             && (cursor.Some? ==> r.seqNo < Clamp(cursor.value))))
  {
    if f.pathPrefix.Some? {
      var s, p := r.event.path.value, f.pathPrefix.value;
      assert Substr(s, |p|) == p by {
        if |p| == |s| {
          assert s[..|p|] == s;
        }
      }
    }
  }

  /** `ORDER BY seq DESC LIMIT n`: walk back from the newest row, stop at `n`. */
  method FetchNewest(rows: seq<Row>, f: Filter, n: nat) returns (fetched: seq<Row>)
    requires BelowSignedMax(rows)
    ensures
      var all := Matching(rows, f, f.cursor);
      fetched == if |all| > n then all[..n] else all
  {
    fetched := [];
    var i := |rows|;
    assert rows[..i] == rows;
    while i > 0 && |fetched| < n
      invariant 0 <= i <= |rows| && |fetched| <= n
      invariant Matching(rows, f, f.cursor) == fetched + Matching(rows[..i], f, f.cursor)
    {
      i := i - 1;
      NextOlder(fetched, rows, i, f);
      fetched := fetched + if SqlWhere(f, f.cursor, rows[i]) then [rows[i]] else [];
    }
    assert i == 0 ==> Matching(rows[..i], f, f.cursor) == [];
  }

  lemma NextOlder(fetched: seq<Row>, rows: seq<Row>, i: nat, f: Filter)
    requires i < |rows| && BelowSignedMax(rows)
    ensures fetched + Matching(rows[..i + 1], f, f.cursor)
      == fetched + (if SqlWhere(f, f.cursor, rows[i]) then [rows[i]] else []) + Matching(rows[..i], f, f.cursor)
  {
    assert rows[..i + 1][..i] == rows[..i];
    WhereAgrees(f, f.cursor, rows[i]);
    PagesAssociate(fetched, if SqlWhere(f, f.cursor, rows[i]) then [rows[i]] else [], Matching(rows[..i], f, f.cursor));
  }

  /** Fetch one row past the page, truncate. */
  method ListSql(rows: seq<Row>, f: Filter) returns (p: Page)
    requires BelowSignedMax(rows)
    ensures p == PageOf(rows, f, f.cursor)
  {
    var limit := EffectiveLimit(f);
    var fetched := FetchNewest(rows, f, limit + 1);
    var next: Option<nat> := None;
    if |fetched| > limit {
      fetched := fetched[..limit];
      next := Some(fetched[limit - 1].seqNo);
    }
    return Page(fetched, next);
  }

  // --- What a query is about ---

  predicate NewestFirst(rows: seq<Row>) {
    forall i, j | 0 <= i < j < |rows| :: rows[i].seqNo > rows[j].seqNo
  }

  /** Exactly the rows that match, strictly newest first. */
  lemma {:induction false} MatchingIsFilter(rows: seq<Row>, f: Filter, cursor: Option<nat>)
    requires Ascending(rows)
    ensures forall r :: r in Matching(rows, f, cursor) <==> r in rows && Picks(f, cursor, r)
    ensures NewestFirst(Matching(rows, f, cursor))
    decreases |rows|
  {
    if rows != [] {
      var n := |rows| - 1;
      var r, older := rows[n], Matching(rows[..n], f, cursor);
      MatchingIsFilter(rows[..n], f, cursor);
      assert rows == rows[..n] + [r];
      forall j | 0 <= j < |older| ensures older[j].seqNo < r.seqNo {
        assert older[j] in rows[..n];
      }
      assert NewestFirst([r] + older);
    }
  }

  /** The trail read at a later request: the earlier one with newer rows behind it. */
  predicate Grows(a: seq<Row>, b: seq<Row>) {
    |a| <= |b| && b[..|a|] == a && Ascending(b)
  }

  lemma {:induction false} GrowthUnseen(a: seq<Row>, b: seq<Row>, f: Filter, c: nat)
    requires Grows(a, b) && forall i | |a| <= i < |b| :: b[i].seqNo >= c
    ensures Matching(b, f, Some(c)) == Matching(a, f, Some(c))
    decreases |b|
  {
    if |a| < |b| {
      var b' := b[..|b| - 1];
      assert b'[..|a|] == a;
      GrowthUnseen(a, b', f, c);
    } else {
      assert b[..|a|] == b;
    }
  }

  /** Moving the cursor past rows that are all older picks the same rows. */
  lemma {:induction false} OlderRows(rows: seq<Row>, f: Filter, cursor: Option<nat>, c: nat)
    requires forall i | 0 <= i < |rows| :: rows[i].seqNo < c
    requires cursor.Some? ==> c <= cursor.value
    ensures Matching(rows, f, Some(c)) == Matching(rows, f, cursor)
    decreases |rows|
  {
    if rows != [] {
      OlderRows(rows[..|rows| - 1], f, cursor, c);
    }
  }

  lemma MatchingStep(rows: seq<Row>, f: Filter, cursor: Option<nat>)
    requires rows != []
    ensures
      var r, older := rows[|rows| - 1], Matching(rows[..|rows| - 1], f, cursor);
      Matching(rows, f, cursor) == if Picks(f, cursor, r) then [r] + older else older
  {}

  /** The cursor taken from the last row of a page continues right after it. */
  lemma {:induction false} CursorContinues(rows: seq<Row>, f: Filter, cursor: Option<nat>, k: nat)
    requires Ascending(rows) && 1 <= k <= |Matching(rows, f, cursor)|
    ensures Matching(rows, f, Some(Matching(rows, f, cursor)[k - 1].seqNo)) == Matching(rows, f, cursor)[k..]
    decreases |rows|
  {
    var n := |rows| - 1;
    var r, rest, all := rows[n], rows[..n], Matching(rows, f, cursor);
    var c := all[k - 1].seqNo;
    MatchingIsFilter(rows, f, cursor);
    assert all[k - 1] in rows && Picks(f, cursor, all[k - 1]);
    MatchingStep(rows, f, cursor);
    MatchingStep(rows, f, Some(c));
    if !Picks(f, cursor, r) {
      CursorContinues(rest, f, cursor, k);
    } else if k == 1 {
      OlderRows(rest, f, cursor, c);
      assert all[1..] == Matching(rest, f, cursor);
    } else {
      assert all[1..] == Matching(rest, f, cursor);
      assert all[1..][k - 2] == all[k - 1] && all[1..][k - 1..] == all[k..];
      CursorContinues(rest, f, cursor, k - 1);
      assert all[0].seqNo > all[k - 1].seqNo;
    }
  }

  // --- Following the cursors ---

  /** Request `i` reads `trails[i]` and starts at the cursor request `i - 1`
      returned; every answer but the last has a cursor to follow. */
  predicate Walk(trails: seq<seq<Row>>, pages: seq<Page>, f: Filter) {
    && |trails| == |pages| >= 1
    && Ascending(trails[0])
    && (forall i | 0 <= i < |pages| - 1 :: Grows(trails[i], trails[i + 1]) && pages[i].next.Some?)
    && pages[0] == PageOf(trails[0], f, f.cursor)
    && (forall i | 1 <= i < |pages| :: pages[i] == PageOf(trails[i], f, pages[i - 1].next))
  }

  function Collected(pages: seq<Page>): seq<Row> {
    if pages == [] then [] else Collected(pages[..|pages| - 1]) + pages[|pages| - 1].rows
  }

  lemma WalkPrefix(trails: seq<seq<Row>>, pages: seq<Page>, f: Filter)
    requires Walk(trails, pages, f) && |pages| > 1
    ensures Walk(trails[..|pages| - 1], pages[..|pages| - 1], f)
    ensures pages[|pages| - 2].next.Some?
    ensures Grows(trails[|pages| - 2], trails[|pages| - 1])
  {
    var n := |pages| - 1;
    var ts, ps := trails[..n], pages[..n];
    assert forall i | 0 <= i < n :: ts[i] == trails[i] && ps[i] == pages[i];
  }

  /** What is left to read when the answers so far end in a cursor. */
  function Left(trail: seq<Row>, f: Filter, next: Option<nat>): seq<Row> {
    if next.None? then [] else Matching(trail, f, next)
  }

  /** The rows read so far, with those still to come, are what matched at first;
      newer rows never fall under a cursor. */
  lemma {:induction false} WalkSoFar(trails: seq<seq<Row>>, pages: seq<Page>, f: Filter)
    requires Walk(trails, pages, f)
    ensures
      var n := |pages| - 1;
      && Ascending(trails[n])
      && Matching(trails[0], f, f.cursor) == Collected(pages) + Left(trails[n], f, pages[n].next)
      && (pages[n].next.Some? ==> Carried(trails[n], pages[n].next.value))
    decreases |pages|
  {
    var n := |pages| - 1;
    if n == 0 {
      PageSplits(trails[0], f, f.cursor);
      assert Collected(pages[..0]) == [];
    } else {
      WalkPrefix(trails, pages, f);
      WalkSoFar(trails[..n], pages[..n], f);
      GrowthBelow(trails[n - 1], trails[n], f, pages[n - 1].next.value);
      PageSplits(trails[n], f, pages[n - 1].next);
      PagesAssociate(Collected(pages[..n]), pages[n].rows, Left(trails[n], f, pages[n].next));
    }
  }

  lemma PagesAssociate(a: seq<Row>, b: seq<Row>, c: seq<Row>)
    ensures a + (b + c) == (a + b) + c
  {
  }

  /** Every page that ends in a cursor is full. */
  lemma {:induction false} FullPages(trails: seq<seq<Row>>, pages: seq<Page>, f: Filter)
    requires Walk(trails, pages, f)
    ensures |Collected(pages)| >= EffectiveLimit(f) * (|pages| - 1)
    ensures pages[|pages| - 1].next.Some? ==> |Collected(pages)| == EffectiveLimit(f) * |pages|
    decreases |pages|
  {
    var n, limit := |pages| - 1, EffectiveLimit(f);
    assert limit * |pages| == limit * n + limit;
    if n == 0 {
      assert Collected(pages[..0]) == [];
    } else {
      WalkPrefix(trails, pages, f);
      FullPages(trails[..n], pages[..n], f);
    }
  }

  /** Some row of the trail carries the cursor. */
  predicate Carried(trail: seq<Row>, c: nat) {
    exists i | 0 <= i < |trail| :: trail[i].seqNo == c
  }

  lemma GrowthBelow(a: seq<Row>, b: seq<Row>, f: Filter, c: nat)
    requires Grows(a, b) && Carried(a, c)
    ensures Matching(b, f, Some(c)) == Matching(a, f, Some(c))
  {
    var i :| 0 <= i < |a| && a[i].seqNo == c;
    assert b[i] == b[..|a|][i];
    GrowthUnseen(a, b, f, c);
  }

  lemma MatchCarried(trail: seq<Row>, f: Filter, cursor: Option<nat>, k: nat)
    requires Ascending(trail) && k < |Matching(trail, f, cursor)|
    ensures Carried(trail, Matching(trail, f, cursor)[k].seqNo)
  {
    MatchingIsFilter(trail, f, cursor);
    var r := Matching(trail, f, cursor)[k];
    assert r in trail;
    var i :| 0 <= i < |trail| && trail[i] == r;
    assert trail[i].seqNo == r.seqNo;
  }

  lemma PageSplits(trail: seq<Row>, f: Filter, cursor: Option<nat>)
    requires Ascending(trail)
    ensures
      var p := PageOf(trail, f, cursor);
      && Matching(trail, f, cursor) == p.rows + Left(trail, f, p.next)
      && (p.next.Some? ==> Carried(trail, p.next.value))
  {
    var limit, all := EffectiveLimit(f), Matching(trail, f, cursor);
    var p := Cut(all, limit);
    CutParts(all, limit);
    if p.next.Some? {
      CursorContinues(trail, f, cursor, limit);
      MatchCarried(trail, f, cursor, limit - 1);
      assert Left(trail, f, p.next) == all[limit..];
    } else {
      assert p.rows + [] == p.rows;
    }
  }

  lemma CutParts(all: seq<Row>, limit: nat)
    requires limit >= 1
    ensures
      var p := Cut(all, limit);
      if p.next.None? then p.rows == all
      else |all| > limit && p.next.value == all[limit - 1].seqNo && all == p.rows + all[limit..]
  {
  }

  /** A page holds the newest matches up to its limit, and a cursor exactly when there
      are more: the sequence number of its last row. */
  lemma PageTells(rows: seq<Row>, f: Filter, cursor: Option<nat>)
    ensures
      var all, p, n := Matching(rows, f, cursor), PageOf(rows, f, cursor), EffectiveLimit(f);
      && |p.rows| == (if |all| < n then |all| else n) && p.rows == all[..|p.rows|]
      && (p.next.Some? <==> |all| > n)
      && (p.next.Some? ==> p.next.value == p.rows[n - 1].seqNo)
  {
    var all, n := Matching(rows, f, cursor), EffectiveLimit(f);
    assert all[..|all|] == all;
  }

  /** Following the cursors to the end returns exactly what matched at the first
      request, newest first and once each, whatever is appended between pages;
      and the end comes after at most one request per full page plus one. */
  lemma CursorsReturnSnapshot(trails: seq<seq<Row>>, pages: seq<Page>, f: Filter)
    requires Walk(trails, pages, f)
    ensures pages[|pages| - 1].next.None? ==> Collected(pages) == Matching(trails[0], f, f.cursor)
    ensures Collected(pages) <= Matching(trails[0], f, f.cursor)
    ensures EffectiveLimit(f) * (|pages| - 1) <= |Matching(trails[0], f, f.cursor)|
  {
    WalkSoFar(trails, pages, f);
    FullPages(trails, pages, f);
  }
}
