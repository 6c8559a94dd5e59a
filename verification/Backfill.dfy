/** The migration that chains rows written before the chain existed: it touches
    only rows without a hash, and the trail then verifies exactly when the hashes
    already there were right. */
module Backfill {
  import opened Types
  import opened Audit
  import opened AuditTamper

  /** Chains every unhashed row from the row before it. */
  function Filled(h: Hashing, rows: seq<Row>): (r: seq<Row>)
    ensures |r| == |rows|
  {
    if rows == [] then []
    else
      var before, x := Filled(h, rows[..|rows| - 1]), rows[|rows| - 1];
      before + [if x.hash == "" then x.(hash := ChainHash(h, LastHash(before), x.event)) else x]
  }

  /** The hashes a chain over the same events, built from nothing, would have. */
  function Rebuilt(h: Hashing, rows: seq<Row>): (r: seq<Row>)
    ensures |r| == |rows|
  {
    if rows == [] then []
    else
      var before, x := Rebuilt(h, rows[..|rows| - 1]), rows[|rows| - 1];
      before + [x.(hash := ChainHash(h, LastHash(before), x.event))]
  }

  function Unhashed(rows: seq<Row>): nat {
    if rows == [] then 0
    else Unhashed(rows[..|rows| - 1]) + if rows[|rows| - 1].hash == "" then 1 else 0
  }

  /** The audit table while the store starts up. */
  class AuditTable {
    var rows: seq<Row>

    constructor (rows: seq<Row>)
      ensures this.rows == rows
    {
      this.rows := rows;
    }

    /** The oldest row without a hash. */
    method FirstUnhashed() returns (k: Option<nat>)
      ensures k.None? ==> forall i | 0 <= i < |rows| :: rows[i].hash != ""
      ensures k.Some? ==> k.value < |rows| && rows[k.value].hash == ""
      ensures k.Some? ==> forall i | 0 <= i < k.value :: rows[i].hash != ""
    {
      for i := 0 to |rows|
        invariant forall j | 0 <= j < i :: rows[j].hash != ""
      {
        if rows[i].hash == "" {
          return Some(i);
        }
      }
      return None;
    }

    /** The SQL append: chain from the newest row, hash, then store the clamped event. */
    method RecordAudit(h: Hashing, seqNo: nat, e: AuditEvent)
      modifies this
      ensures rows == SqlAppended(h, old(rows), seqNo, e)
    {
      var prev := if |rows| > 0 then rows[|rows| - 1].hash else GENESIS;
      var hash := ChainHash(h, prev, e);
      rows := rows + [Row(seqNo, StoredForm(e), hash)];
    }

    /** Chains the oldest unhashed row, if there is one. */
    method FillNext(h: Hashing) returns (k: Option<nat>)
      modifies this
      ensures k.None? ==> rows == old(rows) && forall i | 0 <= i < |rows| :: rows[i].hash != ""
      ensures k.Some? ==> k.value < |old(rows)| && old(rows)[k.value].hash == ""
      ensures k.Some? ==> rows == FillAt(h, old(rows), k.value)
      ensures k.Some? ==> forall i | 0 <= i < k.value :: old(rows)[i].hash != ""
    {
      k := FirstUnhashed();
      if k.Some? {
        var prev := if k.value == 0 then GENESIS else rows[k.value - 1].hash;
        rows := rows[k.value := rows[k.value].(hash := ChainHash(h, prev, rows[k.value].event))];
      }
    }

    method BackfillAuditChain(h: Hashing)
      requires FixedLength(h)
      modifies this
      ensures rows == Filled(h, old(rows))
    {
      while true
        invariant Filled(h, rows) == Filled(h, old(rows))
        decreases Unhashed(rows)
      {
        ghost var was := rows;
        var k := FillNext(h);
        if k.None? {
          HashedStays(h, rows);
          break;
        }
        FillAtKeepsFilled(h, was, k.value);
        FillLowersCount(h, was, k.value);
      }
    }
  }

  /** One row chained from its immediate predecessor. */
  function FillAt(h: Hashing, rows: seq<Row>, i: nat): seq<Row>
    requires i < |rows|
  {
    rows[i := rows[i].(hash := ChainHash(h, Prev(GENESIS, rows, i), rows[i].event))]
  }

  lemma {:induction false} HashedStays(h: Hashing, rows: seq<Row>)
    requires forall i | 0 <= i < |rows| :: rows[i].hash != ""
    ensures Filled(h, rows) == rows
    decreases |rows|
  {
    if rows != [] {
      HashedStays(h, rows[..|rows| - 1]);
      assert rows == rows[..|rows| - 1] + [rows[|rows| - 1]];
    }
  }

  lemma FillNewest(h: Hashing, rows: seq<Row>, k: nat)
    requires FixedLength(h) && k == |rows| - 1 && rows[k].hash == "" && forall i | 0 <= i < k :: rows[i].hash != ""
    ensures Filled(h, FillAt(h, rows, k)) == Filled(h, rows) == FillAt(h, rows, k)
  {
    var after, prev := FillAt(h, rows, k), Prev(GENESIS, rows, k);
    HashedStays(h, rows[..k]);
    assert |ChainHash(h, prev, rows[k].event)| == HASH_LENGTH;
    HashedStays(h, after);
    assert LastHash(rows[..k]) == prev;
  }

  /** Chaining the oldest unhashed row first changes nothing about the outcome. */
  lemma {:induction false} FillAtKeepsFilled(h: Hashing, rows: seq<Row>, k: nat)
    requires FixedLength(h) && k < |rows| && rows[k].hash == "" && forall i | 0 <= i < k :: rows[i].hash != ""
    ensures Filled(h, FillAt(h, rows, k)) == Filled(h, rows)
    decreases |rows|
  {
    var n := |rows| - 1;
    if k == n {
      FillNewest(h, rows, k);
    } else {
      FillAtKeepsFilled(h, rows[..n], k);
      assert FillAt(h, rows, k)[..n] == FillAt(h, rows[..n], k);
    }
  }

  lemma FillLowersCount(h: Hashing, rows: seq<Row>, i: nat)
    requires FixedLength(h) && i < |rows| && rows[i].hash == ""
    ensures Unhashed(FillAt(h, rows, i)) < Unhashed(rows)
  {
    assert |ChainHash(h, Prev(GENESIS, rows, i), rows[i].event)| == HASH_LENGTH;
    UnhashedFalls(rows, i, ChainHash(h, Prev(GENESIS, rows, i), rows[i].event));
  }

  lemma {:induction false} UnhashedFalls(rows: seq<Row>, i: nat, hash: string)
    requires i < |rows| && rows[i].hash == "" && hash != ""
    ensures Unhashed(rows[i := rows[i].(hash := hash)]) == Unhashed(rows) - 1
    decreases |rows|
  {
    var after, last := rows[i := rows[i].(hash := hash)], |rows| - 1;
    if i < last {
      UnhashedFalls(rows[..last], i, hash);
      assert after[..last] == rows[..last][i := rows[i].(hash := hash)];
    } else {
      assert after[..last] == rows[..last];
    }
  }

  /** Backfill keeps every row that had a hash, and of the others everything else. */
  lemma {:induction false} FilledChangesOnlyUnhashed(h: Hashing, rows: seq<Row>, i: nat)
    requires i < |rows|
    ensures
      var r := Filled(h, rows)[i];
      r.seqNo == rows[i].seqNo && r.event == rows[i].event && (rows[i].hash != "" ==> r == rows[i])
    decreases |rows|
  {
    if i < |rows| - 1 {
      FilledChangesOnlyUnhashed(h, rows[..|rows| - 1], i);
    }
  }

  lemma {:induction false} RebuiltIntact(h: Hashing, rows: seq<Row>)
    ensures Intact(h, GENESIS, Rebuilt(h, rows))
    decreases |rows|
  {
    if rows != [] {
      var x := rows[|rows| - 1];
      RebuiltIntact(h, rows[..|rows| - 1]);
      AppendKeepsIntact(h, Rebuilt(h, rows[..|rows| - 1]), x.seqNo, x.event);
    }
  }

  /** The condition for a good backfill: every hash already there is the one a
      chain rebuilt from the events has at that row. */
  predicate AgreesWhereHashed(h: Hashing, rows: seq<Row>) {
    forall i | 0 <= i < |rows| :: rows[i].hash == "" || rows[i].hash == Rebuilt(h, rows)[i].hash
  }

  /** The backfilled trail verifies from genesis exactly under that condition,
      and then it is the rebuilt chain. */
  lemma {:induction false} BackfillVerifiesIff(h: Hashing, rows: seq<Row>)
    requires FixedLength(h)
    ensures Intact(h, GENESIS, Filled(h, rows)) <==> AgreesWhereHashed(h, rows)
    ensures AgreesWhereHashed(h, rows) ==> Filled(h, rows) == Rebuilt(h, rows)
    decreases |rows|
  {
    if rows != [] {
      var n := |rows| - 1;
      var rest, x, filled := rows[..n], rows[n], Filled(h, rows);
      BackfillVerifiesIff(h, rest);
      RestAgrees(h, rows);
      assert filled[..n] == Filled(h, rest);
      assert Prev(GENESIS, filled, n) == LastHash(Filled(h, rest));
      if AgreesWhereHashed(h, rows) {
        RebuiltIntact(h, rows);
      }
      if Intact(h, GENESIS, filled) {
        PrefixIntact(h, GENESIS, filled, n);
        assert LinkOk(h, GENESIS, filled, n);
      }
    }
  }

  lemma RestAgrees(h: Hashing, rows: seq<Row>)
    requires rows != []
    ensures
      var n := |rows| - 1;
      AgreesWhereHashed(h, rows) <==>
        AgreesWhereHashed(h, rows[..n]) && (rows[n].hash == "" || rows[n].hash == Rebuilt(h, rows)[n].hash)
  {
    var n := |rows| - 1;
    forall i | 0 <= i < n ensures Rebuilt(h, rows)[i] == Rebuilt(h, rows[..n])[i] && rows[i] == rows[..n][i] {
    }
  }

  /** Numbered events appended to the table one after another, as the store does it. */
  function SqlAppendedAll(h: Hashing, rows: seq<Row>, more: seq<(nat, AuditEvent)>): seq<Row> {
    if more == [] then rows
    else
      var before, x := SqlAppendedAll(h, rows, more[..|more| - 1]), more[|more| - 1];
      SqlAppended(h, before, x.0, x.1)
  }

  /** Clamping leaves the event as it is. */
  predicate Fits(e: AuditEvent) {
    e.ts <= I64_MAX && (e.latencyMs.Some? ==> e.latencyMs.value <= I64_MAX)
  }

  lemma {:induction false} SqlAppendsKeepIntact(h: Hashing, rows: seq<Row>, more: seq<(nat, AuditEvent)>)
    requires Intact(h, GENESIS, rows) && forall i | 0 <= i < |more| :: Fits(more[i].1)
    ensures Intact(h, GENESIS, SqlAppendedAll(h, rows, more))
  {
    if more != [] {
      var n := |more| - 1;
      var before := SqlAppendedAll(h, rows, more[..n]);
      SqlAppendsKeepIntact(h, rows, more[..n]);
      assert Fits(more[n].1) && StoredForm(more[n].1) == more[n].1;
      AppendKeepsIntact(h, before, more[n].0, more[n].1);
    }
  }

  /** An intact hashed prefix, however short, meets the condition; and any number
      of appends the store makes after the backfill keep the trail verifying, as
      long as their numbers fit. */
  lemma IntactPrefixBackfills(h: Hashing, rows: seq<Row>, n: nat, more: seq<(nat, AuditEvent)>)
    requires FixedLength(h) && n <= |rows| && Intact(h, GENESIS, rows[..n])
    requires forall i | n <= i < |rows| :: rows[i].hash == ""
    ensures Intact(h, GENESIS, Filled(h, rows))
    ensures (forall i | 0 <= i < |more| :: Fits(more[i].1))
      ==> Intact(h, GENESIS, SqlAppendedAll(h, Filled(h, rows), more))
  {
    IntactIsRebuilt(h, rows[..n]);
    forall i | 0 <= i < |rows| ensures rows[i].hash == "" || rows[i].hash == Rebuilt(h, rows)[i].hash {
      if i < n {
        RebuiltPrefix(h, rows, n);
        assert rows[i] == rows[..n][i] && Rebuilt(h, rows)[..n][i] == Rebuilt(h, rows)[i];
      }
    }
    BackfillVerifiesIff(h, rows);
    if forall i | 0 <= i < |more| :: Fits(more[i].1) {
      SqlAppendsKeepIntact(h, Filled(h, rows), more);
    }
  }

  lemma {:induction false} IntactIsRebuilt(h: Hashing, rows: seq<Row>)
    requires Intact(h, GENESIS, rows)
    ensures Rebuilt(h, rows) == rows
    decreases |rows|
  {
    if rows != [] {
      var n := |rows| - 1;
      PrefixIntact(h, GENESIS, rows, n);
      IntactIsRebuilt(h, rows[..n]);
      assert LinkOk(h, GENESIS, rows, n);
      assert rows == rows[..n] + [rows[n]];
    }
  }

  lemma {:induction false} RebuiltPrefix(h: Hashing, rows: seq<Row>, n: nat)
    requires n <= |rows|
    ensures Rebuilt(h, rows)[..n] == Rebuilt(h, rows[..n])
    decreases |rows|
  {
    if n < |rows| {
      RebuiltPrefix(h, rows[..|rows| - 1], n);
      assert rows[..|rows| - 1][..n] == rows[..n];
    } else {
      assert rows[..n] == rows;
    }
  }
}
