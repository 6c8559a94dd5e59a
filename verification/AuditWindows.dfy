/** Windowed verification: windows, whatever their sizes, add up to the trail. */
module AuditWindows {
  import opened Types
  import opened Audit

  /** A window of the chain with the hash its first row must chain from. */
  datatype Window = Window(head: string, rows: seq<Row>)

  /** How many rows of an ascending trail come before `from`. */
  function Cut(rows: seq<Row>, from: nat): (k: nat)
    ensures k <= |rows|
  {
    if rows == [] then 0
    else if rows[|rows| - 1].seqNo < from then |rows|
    else Cut(rows[..|rows| - 1], from)
  }

  lemma {:induction false} CutSplits(rows: seq<Row>, from: nat)
    requires Ascending(rows)
    ensures forall i | 0 <= i < |rows| :: rows[i].seqNo < from <==> i < Cut(rows, from)
    decreases |rows|
  {
    if rows != [] {
      var rest := rows[..|rows| - 1];
      CutSplits(rest, from);
      forall i | 0 <= i < |rows| ensures rows[i].seqNo < from <==> i < Cut(rows, from) {
        if i < |rest| {
          assert rest[i] == rows[i];
        }
      }
    }
  }

  lemma {:induction false} CutIs(rows: seq<Row>, from: nat, k: nat)
    requires k <= |rows| && forall i | 0 <= i < |rows| :: rows[i].seqNo < from <==> i < k
    ensures Cut(rows, from) == k
    decreases |rows|
  {
    if rows != [] && rows[|rows| - 1].seqNo >= from {
      CutIs(rows[..|rows| - 1], from, k);
    }
  }

  function WindowOf(rows: seq<Row>, from: nat, limit: nat): Window {
    var k := Cut(rows, from);
    var n := if k + limit < |rows| then k + limit else |rows|;
    Window(Prev(GENESIS, rows, k), rows[k..n])
  }

  /** A window is the first `limit` rows from the start on, headed by the hash of the
      row in front of it, or of the genesis when there is none. */
  lemma WindowTells(rows: seq<Row>, from: nat, limit: nat, k: nat)
    requires k <= |rows| && forall i | 0 <= i < |rows| :: rows[i].seqNo < from <==> i < k
    ensures
      var w := WindowOf(rows, from, limit);
      && |w.rows| == (if |rows| - k < limit then |rows| - k else limit)
      && w.rows == rows[k..k + |w.rows|]
      && w.head == if k == 0 then GENESIS else rows[k - 1].hash
  {
    CutIs(rows, from, k);
  }

  /** Scan back from the newest row for the first one before the window. */
  method HeadBefore(rows: seq<Row>, from: nat) returns (head: string)
    ensures head == Prev(GENESIS, rows, Cut(rows, from))
  {
    var j := |rows|;
    assert rows[..j] == rows;
    while j > 0
      invariant 0 <= j <= |rows| && Cut(rows[..j], from) == Cut(rows, from)
    {
      assert rows[..j][..j - 1] == rows[..j - 1];
      if rows[j - 1].seqNo < from {
        return rows[j - 1].hash;
      }
      j := j - 1;
    }
    return GENESIS;
  }

  /** Keep the rows at or past `from`, and of those the first `limit`. */
  method TakeFrom(rows: seq<Row>, from: nat, limit: nat) returns (taken: seq<Row>)
    requires Ascending(rows)
    ensures taken == WindowOf(rows, from, limit).rows
  {
    taken := [];
    var i, k := 0, Cut(rows, from);
    CutSplits(rows, from);
    while i < |rows| && |taken| < limit
      invariant i <= |rows| && |taken| <= limit
      invariant i <= k ==> taken == []
      invariant i > k ==> taken == rows[k..i]
    {
      if rows[i].seqNo >= from {
        taken := taken + [rows[i]];
      }
      i := i + 1;
    }
  }

  /** The read behind `audit_chain`. */
  method AuditChain(rows: seq<Row>, fromSeq: Option<nat>, limit: nat) returns (w: Window)
    requires Ascending(rows)
    ensures w == WindowOf(rows, if fromSeq.Some? then fromSeq.value else 1, limit)
  {
    var from := if fromSeq.Some? then fromSeq.value else 1;
    var head := HeadBefore(rows, from);
    var taken := TakeFrom(rows, from, limit);
    return Window(head, taken);
  }

  /** The SQL read takes genesis whenever the window starts at or before 1, and
      clamps the bound; on numbered rows it is the same window. */
  function SqlWindowOf(rows: seq<Row>, fromSeq: Option<nat>, limit: nat): Window {
    var bound := if fromSeq.Some? then Clamp(fromSeq.value) else 0;
    var w := WindowOf(rows, bound, limit);
    if fromSeq.Some? && fromSeq.value > 1 then w else w.(head := GENESIS)
  }

  lemma SqlWindowAgrees(rows: seq<Row>, fromSeq: Option<nat>, limit: nat)
    requires Ascending(rows) && forall i | 0 <= i < |rows| :: 1 <= rows[i].seqNo < I64_MAX
    ensures SqlWindowOf(rows, fromSeq, limit) == WindowOf(rows, if fromSeq.Some? then fromSeq.value else 1, limit)
  {
    var from := if fromSeq.Some? then fromSeq.value else 1;
    var bound := if fromSeq.Some? then Clamp(fromSeq.value) else 0;
    CutSplits(rows, bound);
    CutIs(rows, from, Cut(rows, bound));
    if from <= 1 {
      CutIs(rows, from, 0);
    }
  }

  // --- Verifying by windows ---

  lemma {:induction false} BrokenSplits(h: Hashing, head: string, a: seq<Row>, b: seq<Row>)
    ensures FirstBroken(h, head, a + b)
      == if FirstBroken(h, head, a).Some? then FirstBroken(h, head, a) else FirstBroken(h, Prev(head, a, |a|), b)
    decreases |a|
  {
    if a == [] {
      assert a + b == b;
    } else {
      assert (a + b)[1..] == a[1..] + b;
      BrokenSplits(h, a[0].hash, a[1..], b);
    }
  }

  /** What a reader finds who verifies window after window, each starting past the
      last row of the one before; page sizes may differ from window to window. */
  function ByWindows(h: Hashing, rows: seq<Row>, from: nat, limit: nat -> nat): Option<nat>
    requires Ascending(rows)
    decreases |rows| - Cut(rows, from)
  {
    var w := WindowOf(rows, from, limit(from));
    if w.rows == [] then None
    else if FirstBroken(h, w.head, w.rows).Some? then FirstBroken(h, w.head, w.rows)
    else
      CutPast(rows, from, limit(from));
      ByWindows(h, rows, w.rows[|w.rows| - 1].seqNo + 1, limit)
  }

  lemma CutPast(rows: seq<Row>, from: nat, limit: nat)
    requires Ascending(rows) && WindowOf(rows, from, limit).rows != []
    ensures
      var w := WindowOf(rows, from, limit).rows;
      Cut(rows, w[|w| - 1].seqNo + 1) == Cut(rows, from) + |w|
  {
    var w := WindowOf(rows, from, limit).rows;
    var k, next := Cut(rows, from) + |w|, w[|w| - 1].seqNo + 1;
    assert rows[k - 1] == w[|w| - 1];
    CutIs(rows, next, k);
  }

  /** What the replay reports from row `k` on. */
  function BrokenFrom(h: Hashing, rows: seq<Row>, k: nat): Option<nat>
    requires k <= |rows|
  {
    FirstBroken(h, Prev(GENESIS, rows, k), rows[k..])
  }

  /** One window, and then the rest of the trail. */
  lemma WindowThenRest(h: Hashing, rows: seq<Row>, from: nat, limit: nat)
    requires Ascending(rows) && WindowOf(rows, from, limit).rows != []
    ensures
      var w := WindowOf(rows, from, limit);
      var broken := FirstBroken(h, w.head, w.rows);
      BrokenFrom(h, rows, Cut(rows, from))
      == if broken.Some? then broken else BrokenFrom(h, rows, Cut(rows, w.rows[|w.rows| - 1].seqNo + 1))
  {
    var w, k := WindowOf(rows, from, limit), Cut(rows, from);
    CutPast(rows, from, limit);
    assert rows[k..] == w.rows + rows[k + |w.rows|..];
    BrokenSplits(h, w.head, w.rows, rows[k + |w.rows|..]);
  }

  /** Verifying a trail by windows of any sizes of at least one row reports what
      verifying it whole reports. */
  lemma {:induction false} WindowsAddUp(h: Hashing, rows: seq<Row>, from: nat, limit: nat -> nat)
    requires Ascending(rows) && forall x :: limit(x) >= 1
    ensures ByWindows(h, rows, from, limit) == BrokenFrom(h, rows, Cut(rows, from))
    decreases |rows| - Cut(rows, from)
  {
    var w := WindowOf(rows, from, limit(from));
    ByWindowsStep(h, rows, from, limit);
    if w.rows == [] {
      assert Cut(rows, from) == |rows|;
    } else {
      CutPast(rows, from, limit(from));
      WindowThenRest(h, rows, from, limit(from));
      WindowsAddUp(h, rows, w.rows[|w.rows| - 1].seqNo + 1, limit);
    }
  }

  lemma ByWindowsStep(h: Hashing, rows: seq<Row>, from: nat, limit: nat -> nat)
    requires Ascending(rows)
    ensures
      var w := WindowOf(rows, from, limit(from));
      var broken := FirstBroken(h, w.head, w.rows);
      ByWindows(h, rows, from, limit) ==
        if w.rows == [] then None else if broken.Some? then broken
        else ByWindows(h, rows, w.rows[|w.rows| - 1].seqNo + 1, limit)
  {
  }

  lemma WholeTrailByWindows(h: Hashing, rows: seq<Row>, limit: nat -> nat)
    requires Ascending(rows) && (forall i | 0 <= i < |rows| :: rows[i].seqNo >= 1) && forall x :: limit(x) >= 1
    ensures ByWindows(h, rows, 1, limit) == FirstBroken(h, GENESIS, rows)
    ensures ByWindows(h, rows, 1, limit).None? <==> Intact(h, GENESIS, rows)
  {
    CutIs(rows, 1, 0);
    WindowsAddUp(h, rows, 1, limit);
    assert rows[0..] == rows;
    IntactIffUnbroken(h, GENESIS, rows);
  }

  /** An append, such as the row every verification leaves behind, changes no report. */
  lemma AppendKeepsReport(h: Hashing, rows: seq<Row>, seqNo: nat, e: AuditEvent)
    ensures FirstBroken(h, GENESIS, Appended(h, rows, seqNo, e)) == FirstBroken(h, GENESIS, rows)
  {
    var row := Row(seqNo, e, ChainHash(h, LastHash(rows), e));
    BrokenSplits(h, GENESIS, rows, [row]);
    assert FirstBroken(h, LastHash(rows), [row]) == FirstBroken(h, row.hash, []);
  }

  // --- A trail that grows while it is verified ---

  /** A later reading of the trail: the earlier one, and chained appends behind it,
      such as the row every verification leaves. */
  predicate Grown(h: Hashing, a: seq<Row>, b: seq<Row>) {
    && |a| <= |b| && b[..|a|] == a && Ascending(b)
    && forall i | |a| <= i < |b| :: LinkOk(h, GENESIS, b, i)
  }

  lemma GrownTwice(h: Hashing, a: seq<Row>, b: seq<Row>, c: seq<Row>)
    requires Grown(h, a, b) && Grown(h, b, c)
    ensures Grown(h, a, c)
  {
    assert c[..|a|] == c[..|b|][..|a|];
    forall i | |a| <= i < |c| ensures LinkOk(h, GENESIS, c, i) {
      if i < |b| {
        assert c[i] == c[..|b|][i];
        assert i > 0 ==> c[i - 1] == c[..|b|][i - 1];
        assert LinkOk(h, GENESIS, b, i);
      }
    }
  }

  /** Rows appended since break nothing. */
  lemma AppendedUnbroken(h: Hashing, a: seq<Row>, b: seq<Row>, k: nat)
    requires Grown(h, a, b) && |a| <= k <= |b|
    ensures BrokenFrom(h, b, k) == None
  {
    var rest, head := b[k..], Prev(GENESIS, b, k);
    forall i | 0 <= i < |rest| ensures LinkOk(h, head, rest, i) {
      assert LinkOk(h, GENESIS, b, k + i);
    }
    IntactIffUnbroken(h, head, rest);
  }

  lemma GrowthKeepsRest(h: Hashing, a: seq<Row>, b: seq<Row>, k: nat)
    requires Grown(h, a, b) && k <= |a|
    ensures BrokenFrom(h, b, k) == BrokenFrom(h, a, k)
  {
    assert Prev(GENESIS, b, k) == Prev(GENESIS, a, k) by {
      assert k > 0 ==> b[k - 1] == b[..|a|][k - 1];
    }
    assert b[k..] == a[k..] + b[|a|..];
    BrokenSplits(h, Prev(GENESIS, a, k), a[k..], b[|a|..]);
    assert Prev(Prev(GENESIS, a, k), a[k..], |a[k..]|) == Prev(GENESIS, b, |a|) by {
      assert |a| > 0 ==> b[|a| - 1] == b[..|a|][|a| - 1];
    }
    AppendedUnbroken(h, a, b, |a|);
  }

  /** One verification: the trail as it is by then, and the window size asked for. */
  datatype Look = Look(trail: seq<Row>, limit: nat)

  /** Where the reader goes on after these verifications: past the last row read. */
  function StartAfter(looks: seq<Look>): nat
    decreases |looks|, 1
  {
    if looks == [] then 1
    else
      var w := LastWindow(looks).rows;
      if w == [] then StartAfter(looks[..|looks| - 1]) else w[|w| - 1].seqNo + 1
  }

  function LastWindow(looks: seq<Look>): Window
    requires looks != []
    decreases |looks|, 0
  {
    var n := |looks| - 1;
    WindowOf(looks[n].trail, StartAfter(looks[..n]), looks[n].limit)
  }

  function LastReport(h: Hashing, looks: seq<Look>): Option<nat>
    requires looks != []
  {
    FirstBroken(h, LastWindow(looks).head, LastWindow(looks).rows)
  }

  function RowsRead(looks: seq<Look>): nat {
    if looks == [] then 0 else RowsRead(looks[..|looks| - 1]) + |LastWindow(looks).rows|
  }

  /** A reader who verifies window after window, each on the trail as it is by then,
      and goes on as long as a window has rows and verifies. */
  predicate Reading(h: Hashing, looks: seq<Look>) {
    && looks != [] && looks[|looks| - 1].limit >= 1
    && var n := |looks| - 1;
       if n == 0 then
         Ascending(looks[0].trail) && forall j | 0 <= j < |looks[0].trail| :: looks[0].trail[j].seqNo >= 1
       else
         && Reading(h, looks[..n])
         && LastWindow(looks[..n]).rows != [] && LastReport(h, looks[..n]).None?
         && Grown(h, looks[n - 1].trail, looks[n].trail)
  }

  /** A start past a row of the trail cuts the grown trail where it cuts the trail. */
  lemma CutOfGrown(h: Hashing, a: seq<Row>, b: seq<Row>, k: nat)
    requires Grown(h, a, b) && Ascending(a) && 0 < k <= |a|
    ensures Cut(b, a[k - 1].seqNo + 1) == k
  {
    assert a[k - 1] == b[..|a|][k - 1];
    CutIs(b, a[k - 1].seqNo + 1, k);
  }

  /** The reader has read the first `k` rows of the trail, all fine, and starts
      right behind them. */
  ghost predicate ReadUpTo(h: Hashing, first: seq<Row>, t: seq<Row>, from: nat, k: nat) {
    && Ascending(t) && Grown(h, first, t) && k <= |t|
    && Cut(t, from) == k
    && FirstBroken(h, GENESIS, first) == BrokenFrom(h, t, k)
  }

  lemma LastOfWindow(t: seq<Row>, from: nat, limit: nat)
    requires WindowOf(t, from, limit).rows != []
    ensures
      var w, k := WindowOf(t, from, limit).rows, Cut(t, from);
      k + |w| <= |t| && w[|w| - 1] == t[k + |w| - 1]
  {
  }

  /** A window that breaks reports for the first trail; one that does not moves the
      reader past its rows. */
  lemma WindowVerdict(h: Hashing, first: seq<Row>, t: seq<Row>, from: nat, k: nat, limit: nat, w: Window)
    requires ReadUpTo(h, first, t, from, k) && w == WindowOf(t, from, limit) && w.rows != []
    ensures k + |w.rows| <= |t| && w.rows[|w.rows| - 1] == t[k + |w.rows| - 1]
    ensures FirstBroken(h, GENESIS, first)
      == if FirstBroken(h, w.head, w.rows).Some? then FirstBroken(h, w.head, w.rows) else BrokenFrom(h, t, k + |w.rows|)
  {
    LastOfWindow(t, from, limit);
    CutPast(t, from, limit);
    WindowThenRest(h, t, from, limit);
  }

  /** The trail grows while the reader stands still. */
  lemma ReaderWaits(h: Hashing, first: seq<Row>, t: seq<Row>, t': seq<Row>, k: nat)
    requires 0 < k <= |t| && Ascending(t) && Grown(h, first, t) && Grown(h, t, t')
    requires FirstBroken(h, GENESIS, first) == BrokenFrom(h, t, k)
    ensures ReadUpTo(h, first, t', t[k - 1].seqNo + 1, k)
  {
    GrownTwice(h, first, t, t');
    CutOfGrown(h, t, t', k);
    GrowthKeepsRest(h, t, t', k);
  }

  lemma ReaderMoves(h: Hashing, first: seq<Row>, t: seq<Row>, from: nat, k: nat, limit: nat, w: Window,
                    t': seq<Row>, from': nat, k': nat)
    requires ReadUpTo(h, first, t, from, k) && w == WindowOf(t, from, limit) && w.rows != []
    requires FirstBroken(h, w.head, w.rows).None? && Grown(h, t, t')
    requires from' == w.rows[|w.rows| - 1].seqNo + 1 && k' == k + |w.rows|
    ensures ReadUpTo(h, first, t', from', k')
  {
    WindowVerdict(h, first, t, from, k, limit, w);
    ReaderWaits(h, first, t, t', k');
  }

  lemma ReaderStarts(h: Hashing, first: seq<Row>)
    requires Ascending(first) && forall j | 0 <= j < |first| :: first[j].seqNo >= 1
    ensures ReadUpTo(h, first, first, 1, 0)
  {
    CutIs(first, 1, 0);
    assert first[0..] == first && first[..|first|] == first;
  }

  lemma {:induction false} ReadSoFar(h: Hashing, looks: seq<Look>)
    requires Reading(h, looks)
    ensures var n := |looks| - 1;
      RowsRead(looks[..n]) >= n
        && ReadUpTo(h, looks[0].trail, looks[n].trail, StartAfter(looks[..n]), RowsRead(looks[..n]))
  {
    var n := |looks| - 1;
    if n == 0 {
      assert looks[..0] == [];
      ReaderStarts(h, looks[0].trail);
    } else {
      var front := looks[..n];
      ReadSoFar(h, front);
      assert front[0] == looks[0] && front[n - 1] == looks[n - 1];
      var first, t, k, w := looks[0].trail, looks[n - 1].trail, RowsRead(front[..n - 1]), LastWindow(front);
      ReaderMoves(h, first, t, StartAfter(front[..n - 1]), k, looks[n - 1].limit, w,
                  looks[n].trail, StartAfter(front), RowsRead(front));
    }
  }

  /** Once the reader is past the rows of the first trail, that trail is intact. */
  lemma ReadAll(h: Hashing, first: seq<Row>, t: seq<Row>, k: nat)
    requires Grown(h, first, t) && |first| <= k <= |t| && FirstBroken(h, GENESIS, first) == BrokenFrom(h, t, k)
    ensures Intact(h, GENESIS, first)
  {
    AppendedUnbroken(h, first, t, k);
    IntactIffUnbroken(h, GENESIS, first);
  }

  /** Whatever is appended meanwhile, and whatever the window sizes: a window that
      breaks reports what verifying the first trail whole would have reported;
      if none does until the rows of the first trail are read, that trail is
      intact; and that takes at most as many windows as it has rows. */
  lemma GrowingWindows(h: Hashing, looks: seq<Look>)
    requires Reading(h, looks)
    ensures
      var first, broken := looks[0].trail, LastReport(h, looks);
      && (broken.Some? ==> FirstBroken(h, GENESIS, first) == broken)
      && (broken.None? && RowsRead(looks) >= |first| ==> Intact(h, GENESIS, first))
      && (|looks| >= |first| ==> RowsRead(looks) >= |first|)
  {
    var n := |looks| - 1;
    var front, first := looks[..n], looks[0].trail;
    var t, w, from, k := looks[n].trail, LastWindow(looks), StartAfter(front), RowsRead(front);
    ReadSoFar(h, looks);
    if w.rows == [] {
      ReadAll(h, first, t, k);
    } else {
      WindowVerdict(h, first, t, from, k, looks[n].limit, w);
      if LastReport(h, looks).None? && k + |w.rows| >= |first| {
        ReadAll(h, first, t, k + |w.rows|);
      }
    }
  }
}
