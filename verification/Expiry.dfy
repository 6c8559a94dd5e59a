/** The lifecycle reaper over store histories: which rows a pass flips, told by the
    writes that made them. */
module Expiry {
  import opened Types
  import opened Reaper
  import Outbox
  import CS = ClusterStore

  function RowAfter(ops: seq<CS.Op>, id: Id): StoredCluster
    requires id in CS.Run(CS.EmptyTables, ops).clusters
  {
    CS.Run(CS.EmptyTables, ops).clusters[id]
  }

  predicate StoredAfter(ops: seq<CS.Op>, id: Id) {
    id in CS.Run(CS.EmptyTables, ops).clusters
  }

  /** Operation `k` is the upsert that created the row there is. */
  predicate Creates(ops: seq<CS.Op>, k: nat, id: Id) {
    && k < |ops| && ops[k].UpsertOp? && ops[k].id == id
    && !StoredAfter(ops[..k], id)
    && forall n | k < n <= |ops| :: StoredAfter(ops[..n], id)
  }

  lemma CreationStep(t: CS.Tables, op: CS.Op, id: Id)
    requires id in CS.Step(t, op).clusters
    ensures id in t.clusters ==> CS.Step(t, op).clusters[id].createdAt == t.clusters[id].createdAt
    ensures id !in t.clusters ==> op.UpsertOp? && op.id == id && CS.Step(t, op).clusters[id].createdAt == op.now
  {}

  /** Every stored row was created by one upsert, and carries its clock. */
  lemma {:induction false} CreatedBy(ops: seq<CS.Op>, id: Id) returns (k: nat)
    requires StoredAfter(ops, id)
    ensures Creates(ops, k, id) && RowAfter(ops, id).createdAt == ops[k].now
    decreases |ops|
  {
    var n := |ops| - 1;
    var rest := ops[..n];
    assert ops[..|ops|] == ops;
    CreationStep(CS.Run(CS.EmptyTables, rest), ops[n], id);
    if StoredAfter(rest, id) {
      k := CreatedBy(rest, id);
      assert rest[..k] == ops[..k];
      assert forall i | k < i <= n :: rest[..i] == ops[..i];
    } else {
      k := n;
    }
  }

  lemma OneCreation(ops: seq<CS.Op>, id: Id, k: nat, k': nat)
    requires Creates(ops, k, id) && Creates(ops, k', id)
    ensures k == k'
  {}

  /** Over every history a pass flips a row for its age if and only if the last writes
      want it and report it Running, the spec last written has a max age, and the
      upsert that created it lies at least that far back. */
  lemma FlippedForAgeIff(ops: seq<CS.Op>, id: Id, k: nat, jobs: seq<JobRecord>, now: nat)
    requires Creates(ops, k, id)
    ensures StoredAfter(ops, id) && CS.LifeOf(ops, id).Some? && CS.WritesOf(ops, id).Some?
    ensures var ttl, last := CS.LifeOf(ops, id).value.spec.ttlSeconds, CS.WritesOf(ops, id).value;
      Reason(RowAfter(ops, id), jobs, now) == Some(MaxAge)
      <==> last.desired == WantRunning && last.observed == Some(Running)
           && ttl.Some? && (ttl.value == 0 || ops[k].now + ttl.value <= now)
  {
    assert ops[..|ops|] == ops;
    var k' := CreatedBy(ops, id);
    OneCreation(ops, id, k, k');
    CS.GenerationCountsChanges(ops, id);
    CS.RowTellsHistory(ops, id);
    ReasonIs(RowAfter(ops, id), jobs, now);
  }

  /** A pass over everything stored leaves each row that has outlived its max age, or
      has been idle for its window, wanted Terminated, and every other as it was. */
  lemma PassFlipsDue(m: CS.Clusters, rows: seq<StoredCluster>, jobs: seq<JobRecord>, now: nat, at: Id -> nat, id: Id)
    requires Outbox.ListsAll(m, rows) && id in m
    ensures var m' := Flipped(m, rows, jobs, now, at);
      && m'.Keys == m.Keys
      && m'[id] == if Reason(m[id], jobs, now).Some? then CS.Flip(m[id], WantTerminated, at(id)) else m[id]
    ensures id in Reaped(rows, jobs, now) <==> Reason(m[id], jobs, now).Some?
  {
    FlipsExactly(m, rows, jobs, now, at, id);
    ReapedIff(rows, jobs, now, id);
    assert m[id].id == id && m[id] in rows;
    var i :| 0 <= i < |rows| && rows[i] == m[id];
    assert forall k | 0 <= k < |rows| && rows[k].id == id :: rows[k] == m[id];
  }

  lemma {:induction false} RunConcat(t: CS.Tables, a: seq<CS.Op>, b: seq<CS.Op>)
    ensures CS.Run(t, a + b) == CS.Run(CS.Run(t, a), b)
  {
    if b == [] {
      assert a + b == a;
    } else {
      assert (a + b)[..|a + b| - 1] == a + b[..|b| - 1];
      RunConcat(t, a, b[..|b| - 1]);
    }
  }

  /** A row due for its age stays due: at every later time, after any writes that keep
      it and do not raise its max age, whenever it is wanted and seen Running. */
  lemma AgedStaysAged(ops: seq<CS.Op>, more: seq<CS.Op>, id: Id, now: nat, later: nat, jobs: seq<JobRecord>)
    requires StoredAfter(ops, id) && Aged(RowAfter(ops, id), now) && now <= later
    requires CS.RemoveOp(id) !in more
    ensures StoredAfter(ops + more, id)
    ensures var c, c' := RowAfter(ops, id), RowAfter(ops + more, id);
      c'.desired == WantRunning && c'.observedState == Some(Running)
      && c'.spec.ttlSeconds.Some? && c'.spec.ttlSeconds.value <= c.spec.ttlSeconds.value
      ==> Reason(c', jobs, later) == Some(MaxAge)
  {
    RunConcat(CS.EmptyTables, ops, more);
    CS.GenerationsNeverFall(CS.Run(CS.EmptyTables, ops), more, id);
    ReasonIs(RowAfter(ops + more, id), jobs, later);
  }
}
