/** The audit trail's rows and its hash chain: append, windows and replay. The
    digest and the canonical serialization are parameters; lemmas that need
    them collision-free say so, and only for the inputs that occur. */
module Audit {
  import opened Types

  datatype Verdict = Allow | Deny

  datatype Required = Required(action: string, target: string)

  datatype AuditEvent = AuditEvent(
    ts: nat, subject: Option<string>, decision: Verdict, reason: Option<string>,
    action: Option<string>, cluster: Option<string>, verb: Option<string>, path: Option<string>,
    status: Option<nat>, latencyMs: Option<nat>, required: Option<Required>, grantedRoles: seq<string>)

  /** One row as the chain sees it. */
  datatype Row = Row(seqNo: nat, event: AuditEvent, hash: string)

  datatype Hashing = Hashing(sha: string -> string, canon: AuditEvent -> string)

  const HASH_LENGTH: nat := 64

  /** The head the first row chains from: 64 zeros. */
  const GENESIS: string := Zeros(HASH_LENGTH)

  function Zeros(n: nat): (s: string)
    ensures |s| == n
  {
    seq(n, i => '0')
  }

  /** Every digest is 64 hex characters long. */
  ghost predicate FixedLength(h: Hashing) {
    forall x :: |h.sha(x)| == HASH_LENGTH
  }

  function ChainHash(h: Hashing, prev: string, e: AuditEvent): string {
    h.sha(prev + h.canon(e))
  }

  /** The hash row `i` must chain from. */
  function Prev(head: string, rows: seq<Row>, i: nat): string
    requires i <= |rows|
  {
    if i == 0 then head else rows[i - 1].hash
  }

  predicate LinkOk(h: Hashing, head: string, rows: seq<Row>, i: nat)
    requires i < |rows|
  {
    rows[i].hash == ChainHash(h, Prev(head, rows, i), rows[i].event)
  }

  predicate Intact(h: Hashing, head: string, rows: seq<Row>) {
    forall i | 0 <= i < |rows| :: LinkOk(h, head, rows, i)
  }

  predicate Ascending(rows: seq<Row>) {
    forall i, j | 0 <= i < j < |rows| :: rows[i].seqNo < rows[j].seqNo
  }

  /** The replay of a window, linked pairwise and stopping at the first mismatch. */
  method VerifyAuditChain(h: Hashing, head: string, rows: seq<Row>) returns (checked: nat, firstBroken: Option<nat>)
    ensures firstBroken == FirstBroken(h, head, rows)
    ensures firstBroken.None? ==> checked == |rows| && Intact(h, head, rows)
    ensures firstBroken.Some? ==> checked < |rows| && BreaksFirstAt(h, head, rows, checked)
    ensures firstBroken.Some? ==> firstBroken.value == rows[checked].seqNo
  {
    var prev := head;
    checked := 0;
    while checked < |rows|
      invariant checked <= |rows| && prev == Prev(head, rows, checked)
      invariant forall i | 0 <= i < checked :: LinkOk(h, head, rows, i)
    {
      if ChainHash(h, prev, rows[checked].event) != rows[checked].hash {
        FirstBrokenAt(h, head, rows, checked);
        return checked, Some(rows[checked].seqNo);
      }
      prev := rows[checked].hash;
      checked := checked + 1;
    }
    IntactIffUnbroken(h, head, rows);
    return checked, None;
  }

  predicate BreaksFirstAt(h: Hashing, head: string, rows: seq<Row>, k: nat) {
    && k < |rows|
    && !LinkOk(h, head, rows, k)
    && forall i | 0 <= i < k :: LinkOk(h, head, rows, i)
  }

  /** The seq a replay reports, defined from the front of the trail. */
  function FirstBroken(h: Hashing, head: string, rows: seq<Row>): Option<nat>
    decreases |rows|
  {
    if rows == [] then None
    else if ChainHash(h, head, rows[0].event) != rows[0].hash then Some(rows[0].seqNo)
    else FirstBroken(h, rows[0].hash, rows[1..])
  }

  lemma {:induction false} FirstBrokenAt(h: Hashing, head: string, rows: seq<Row>, k: nat)
    requires BreaksFirstAt(h, head, rows, k)
    ensures FirstBroken(h, head, rows) == Some(rows[k].seqNo)
    decreases |rows|
  {
    if k > 0 {
      assert LinkOk(h, head, rows, 0);
      forall i | 0 <= i < |rows| - 1 ensures LinkOk(h, rows[0].hash, rows[1..], i) == LinkOk(h, head, rows, i + 1) {
      }
      FirstBrokenAt(h, rows[0].hash, rows[1..], k - 1);
    }
  }

  lemma {:induction false} IntactIffUnbroken(h: Hashing, head: string, rows: seq<Row>)
    ensures FirstBroken(h, head, rows).None? <==> Intact(h, head, rows)
    decreases |rows|
  {
    if rows != [] {
      IntactIffUnbroken(h, rows[0].hash, rows[1..]);
      forall i | 0 <= i < |rows| - 1 ensures LinkOk(h, rows[0].hash, rows[1..], i) == LinkOk(h, head, rows, i + 1) {
      }
      assert LinkOk(h, head, rows, 0) == (ChainHash(h, head, rows[0].event) == rows[0].hash);
      if Intact(h, head, rows) {
        assert Intact(h, rows[0].hash, rows[1..]);
      }
      if LinkOk(h, head, rows, 0) && Intact(h, rows[0].hash, rows[1..]) {
        forall i | 0 <= i < |rows| ensures LinkOk(h, head, rows, i) {
          if i > 0 {
            assert LinkOk(h, rows[0].hash, rows[1..], i - 1);
          }
        }
      }
    }
  }

  // --- Append ---

  function LastHash(rows: seq<Row>): string {
    Prev(GENESIS, rows, |rows|)
  }

  function Appended(h: Hashing, rows: seq<Row>, seqNo: nat, e: AuditEvent): seq<Row> {
    rows + [Row(seqNo, e, ChainHash(h, LastHash(rows), e))]
  }

  /** The in-memory trail. */
  class AuditLog {
    const h: Hashing
    var rows: seq<Row>
    var counter: nat

    constructor (h: Hashing)
      ensures this.h == h && rows == [] && counter == 0 && Valid()
    {
      this.h, rows, counter := h, [], 0;
    }

    /** Sequence numbers start at 1, ascend and are covered by the counter. */
    predicate Valid()
      reads this
    {
      && Ascending(rows)
      && (forall i | 0 <= i < |rows| :: 1 <= rows[i].seqNo <= counter)
      && Intact(h, GENESIS, rows)
    }

    method RecordAudit(e: AuditEvent) returns (seqNo: nat)
      requires Valid()
      modifies this
      ensures Valid()
      ensures seqNo == old(counter) + 1 && counter == seqNo
      ensures rows == Appended(h, old(rows), seqNo, e)
      ensures rows == old(rows) + [Row(seqNo, e, rows[|rows| - 1].hash)]
    {
      counter := counter + 1;
      seqNo := counter;
      var prev := if |rows| > 0 then rows[|rows| - 1].hash else GENESIS;
      var hash := ChainHash(h, prev, e);
      AppendKeepsIntact(h, rows, seqNo, e);
      rows := rows + [Row(seqNo, e, hash)];
    }
  }

  lemma AppendKeepsIntact(h: Hashing, rows: seq<Row>, seqNo: nat, e: AuditEvent)
    requires Intact(h, GENESIS, rows)
    ensures Intact(h, GENESIS, Appended(h, rows, seqNo, e))
  {
    var after := Appended(h, rows, seqNo, e);
    forall i | 0 <= i < |after| ensures LinkOk(h, GENESIS, after, i) {
      if i < |rows| {
        assert LinkOk(h, GENESIS, rows, i);
      }
    }
  }

  /** The SQL append hashes the event and then stores it with `ts` and
      `latency_ms` clamped to the signed 64-bit range. */
  const I64_MAX: nat := 0x7FFF_FFFF_FFFF_FFFF

  function Clamp(n: nat): nat {
    if n > I64_MAX then I64_MAX else n
  }

  function StoredForm(e: AuditEvent): AuditEvent {
    e.(ts := Clamp(e.ts), latencyMs := if e.latencyMs.Some? then Some(Clamp(e.latencyMs.value)) else None)
  }

  function SqlAppended(h: Hashing, rows: seq<Row>, seqNo: nat, e: AuditEvent): seq<Row> {
    rows + [Row(seqNo, StoredForm(e), ChainHash(h, LastHash(rows), e))]
  }

  /** A row written by the SQL store replays exactly when its numbers fit. */
  lemma SqlAppendIntactIff(h: Hashing, rows: seq<Row>, seqNo: nat, e: AuditEvent)
    requires FixedLength(h) && Intact(h, GENESIS, rows)
    requires Trusted(h, {(LastHash(rows), e), (LastHash(rows), StoredForm(e))})
    ensures Intact(h, GENESIS, SqlAppended(h, rows, seqNo, e))
      <==> e.ts <= I64_MAX && (e.latencyMs.Some? ==> e.latencyMs.value <= I64_MAX)
  {
    var after := SqlAppended(h, rows, seqNo, e);
    forall i | 0 <= i < |rows| ensures LinkOk(h, GENESIS, after, i) {
      assert LinkOk(h, GENESIS, rows, i);
    }
    assert LinkOk(h, GENESIS, after, |rows|) <==> StoredForm(e) == e by {
      var links := {(LastHash(rows), e), (LastHash(rows), StoredForm(e))};
      if ChainHash(h, LastHash(rows), StoredForm(e)) == ChainHash(h, LastHash(rows), e) {
        LastHashLength(h, rows);
        Unambiguous(h, links, (LastHash(rows), StoredForm(e)), (LastHash(rows), e));
      }
    }
  }

  lemma LastHashLength(h: Hashing, rows: seq<Row>)
    requires FixedLength(h) && Intact(h, GENESIS, rows)
    ensures |LastHash(rows)| == HASH_LENGTH
  {
    if rows != [] {
      assert LinkOk(h, GENESIS, rows, |rows| - 1);
    }
  }

  // --- Collisions ---

  type Link = (string, AuditEvent)

  function HashOf(h: Hashing, l: Link): string {
    ChainHash(h, l.0, l.1)
  }

  /** No two of these inputs collide, in the digest or in the serialization. */
  ghost predicate Trusted(h: Hashing, links: set<Link>) {
    && (forall a, b | a in links && b in links && h.canon(a.1) == h.canon(b.1) :: a.1 == b.1)
    && (forall a, b | a in links && b in links && HashOf(h, a) == HashOf(h, b) ::
          a.0 + h.canon(a.1) == b.0 + h.canon(b.1))
  }

  /** Hashes of one length make the concatenated input unambiguous. */
  lemma Unambiguous(h: Hashing, links: set<Link>, a: Link, b: Link)
    requires Trusted(h, links) && a in links && b in links
    requires |a.0| == |b.0| && HashOf(h, a) == HashOf(h, b)
    ensures a == b
  {
    var x, y := a.0 + h.canon(a.1), b.0 + h.canon(b.1);
    assert x == y;
    assert a.0 == x[..|a.0|] && b.0 == y[..|b.0|];
    assert h.canon(a.1) == x[|a.0|..] && h.canon(b.1) == y[|b.0|..];
  }

  function LinkAt(head: string, rows: seq<Row>, i: nat): Link
    requires i < |rows|
  {
    (Prev(head, rows, i), rows[i].event)
  }

  function Links(head: string, rows: seq<Row>): set<Link> {
    set i | 0 <= i < |rows| :: LinkAt(head, rows, i)
  }
}
