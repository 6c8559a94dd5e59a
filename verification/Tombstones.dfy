/** Tombstone retention: what `terminated_at` means over every history of the
    cluster table, and which rows the retention sweep removes. */
module Tombstones {
  import opened Types
  import opened Outbox
  import CS = ClusterStore

  // --- Histories of the cluster table ---

  datatype Write =
    | Upsert(id: Id, spec: ClusterSpec, now: nat)
    | SetDesired(id: Id, desired: DesiredState, now: nat)
    | RemoveRow(id: Id)
    | Observe(id: Id, state: Option<ClusterState>, generation: nat)
    | Annotate(id: Id, condition: Option<DriftCondition>)
    | Attempted(id: Id, failures: nat, at: nat)

  function Do(m: CS.Clusters, w: Write): CS.Clusters {
    match w
    case Upsert(id, spec, now) => CS.Upsert(m, id, spec, now)
    case SetDesired(id, desired, now) => CS.SetDesired(m, id, desired, now)
    case RemoveRow(id) => CS.Remove(m, id)
    case Observe(id, state, generation) => CS.RecordObservation(m, id, state, generation)
    case Annotate(id, condition) => CS.SetCondition(m, id, condition)
    case Attempted(id, failures, at) => CS.RecordAttempt(m, id, failures, at)
  }

  function From(m: CS.Clusters, ws: seq<Write>): CS.Clusters {
    if ws == [] then m else Do(From(m, ws[..|ws| - 1]), ws[|ws| - 1])
  }

  function After(ws: seq<Write>): CS.Clusters {
    From(map[], ws)
  }

  predicate Terminal(m: CS.Clusters, id: Id) {
    id in m && m[id].desired.WantTerminated?
  }

  /** The row was Terminated after every write from the `k`th on, and not before. */
  predicate StretchFrom(ws: seq<Write>, id: Id, k: nat) {
    && 1 <= k <= |ws|
    && !Terminal(After(ws[..k - 1]), id)
    && forall n | k <= n <= |ws| :: Terminal(After(ws[..n]), id)
  }

  /** Where the current stretch began, read off the history alone. */
  function StretchStart(ws: seq<Write>, id: Id): nat {
    if ws == [] || !Terminal(After(ws), id) || !Terminal(After(ws[..|ws| - 1]), id) then |ws|
    else StretchStart(ws[..|ws| - 1], id)
  }

  /** Stamped exactly when Terminated. */
  predicate StampedRight(m: CS.Clusters, id: Id) {
    id in m ==> (m[id].terminatedAt.Some? <==> m[id].desired.WantTerminated?)
  }

  /** A write begins a stretch with its own time, or leaves the stamp alone. */
  lemma WriteStamps(m: CS.Clusters, w: Write, id: Id)
    requires StampedRight(m, id)
    ensures StampedRight(Do(m, w), id)
    ensures Terminal(Do(m, w), id) ==>
      if Terminal(m, id) then Do(m, w)[id].terminatedAt == m[id].terminatedAt
      else w.SetDesired? && Do(m, w)[id].terminatedAt == Some(w.now)
  {
  }

  /** A row carries a stamp exactly while it is Terminated, and the stamp is the
      time of the write that began the current stretch. */
  lemma {:induction false} StampIsStretchStart(ws: seq<Write>, id: Id)
    ensures StampedRight(After(ws), id)
    ensures Terminal(After(ws), id) ==>
      var k := StretchStart(ws, id);
      && StretchFrom(ws, id, k)
      && ws[k - 1].SetDesired?
      && After(ws)[id].terminatedAt == Some(ws[k - 1].now)
    decreases |ws|
  {
    if ws != [] {
      var rest, w := ws[..|ws| - 1], ws[|ws| - 1];
      StampIsStretchStart(rest, id);
      WriteStamps(After(rest), w, id);
      if Terminal(After(ws), id) && Terminal(After(rest), id) {
        StretchGoesOn(ws, id, StretchStart(rest, id));
      } else {
        assert ws[..|ws|] == ws;
      }
    }
  }

  lemma StretchGoesOn(ws: seq<Write>, id: Id, k: nat)
    requires ws != [] && Terminal(After(ws), id) && StretchFrom(ws[..|ws| - 1], id, k)
    ensures StretchFrom(ws, id, k)
  {
    var rest := ws[..|ws| - 1];
    assert rest[..k - 1] == ws[..k - 1];
    forall n | k <= n <= |ws| ensures Terminal(After(ws[..n]), id) {
      if n < |ws| {
        assert rest[..n] == ws[..n];
      } else {
        assert ws[..n] == ws;
      }
    }
  }

  // --- The sweep ---

  predicate ObservedGone(state: Option<ClusterState>) {
    state.None? || state.value.Terminated?
  }

  predicate Purgeable(c: StoredCluster, now: nat, retention: nat) {
    && c.desired.WantTerminated?
    && ObservedGone(c.observedState)
    && c.terminatedAt.Some?
    && SatSub(now, c.terminatedAt.value) >= retention
  }

  datatype SweepCall = ReapPolicies(id: Id, ok: bool) | Removed(id: Id)

  /** What the sweep does about one listed row: reap the policies, and remove the
      row if that went well and the row is still there. */
  function SweepRow(m: CS.Clusters, c: StoredCluster, now: nat, retention: nat, reaps: Id -> bool): seq<SweepCall> {
    if !Purgeable(c, now, retention) then []
    else if reaps(c.id) && c.id in m then [ReapPolicies(c.id, true), Removed(c.id)]
    else [ReapPolicies(c.id, reaps(c.id))]
  }

  /** The calls of a whole sweep. */
  function SweepCalls(m: CS.Clusters, rows: seq<StoredCluster>, now: nat, retention: nat,
                      reaps: Id -> bool): seq<SweepCall>
  {
    if rows == [] then []
    else
      var n := |rows| - 1;
      var before := SweepCalls(m, rows[..n], now, retention, reaps);
      before + SweepRow(m - RemovedIn(before), rows[n], now, retention, reaps)
  }

  function RemovedIn(calls: seq<SweepCall>): set<Id> {
    set i | 0 <= i < |calls| && calls[i].Removed? :: calls[i].id
  }

  class RetentionSweep {
    var clusters: CS.Clusters
    var calls: seq<SweepCall>

    /** The sweep over the rows it listed; `reaps` says which policy reaps succeed. */
    method ReapTerminated(rows: seq<StoredCluster>, now: nat, retention: nat, reaps: Id -> bool)
      returns (removed: seq<Id>)
      requires calls == []
      modifies this
      ensures calls == SweepCalls(old(clusters), rows, now, retention, reaps)
      ensures clusters == old(clusters) - RemovedIn(calls)
      ensures forall id :: id in removed <==> id in RemovedIn(calls)
    {
      removed := [];
      for i := 0 to |rows|
        invariant calls == SweepCalls(old(clusters), rows[..i], now, retention, reaps)
        invariant clusters == old(clusters) - RemovedIn(calls)
        invariant forall id :: id in removed <==> id in RemovedIn(calls)
      {
        var c := rows[i];
        assert rows[..i + 1][..i] == rows[..i];
        ghost var before := calls;
        if Purgeable(c, now, retention) {
          var ok := reaps(c.id);
          RemovedGrows(before, c.id, ok);
          calls := calls + [ReapPolicies(c.id, ok)];
          if ok && c.id in clusters {
            clusters := clusters - {c.id};
            calls := calls + [Removed(c.id)];
            assert calls == before + [ReapPolicies(c.id, ok), Removed(c.id)];
            removed := removed + [c.id];
          }
        }
      }
      assert rows[..|rows|] == rows;
    }
  }

  lemma RemovedGrows(calls: seq<SweepCall>, id: Id, ok: bool)
    ensures RemovedIn(calls + [ReapPolicies(id, ok)]) == RemovedIn(calls)
    ensures RemovedIn(calls + [ReapPolicies(id, ok), Removed(id)]) == RemovedIn(calls) + {id}
  {
    var a, b := calls + [ReapPolicies(id, ok)], calls + [ReapPolicies(id, ok), Removed(id)];
    forall x ensures x in RemovedIn(calls) ==> x in RemovedIn(a) && x in RemovedIn(b) {
      if x in RemovedIn(calls) {
        var i :| 0 <= i < |calls| && calls[i].Removed? && calls[i].id == x;
        assert a[i] == calls[i] && b[i] == calls[i];
      }
    }
    assert b[|calls| + 1] == Removed(id);
  }

  /** Every removal follows a successful reap of that row's policies and concerns a
      listed row that was purgeable. */
  lemma {:induction false} RemovalsJustified(m: CS.Clusters, rows: seq<StoredCluster>, now: nat, retention: nat,
                                             reaps: Id -> bool, i: nat)
    requires i < |SweepCalls(m, rows, now, retention, reaps)|
    requires SweepCalls(m, rows, now, retention, reaps)[i].Removed?
    ensures
      var calls := SweepCalls(m, rows, now, retention, reaps);
      && i > 0 && calls[i - 1] == ReapPolicies(calls[i].id, true)
      && exists c | c in rows :: c.id == calls[i].id && Purgeable(c, now, retention)
    decreases |rows|
  {
    var n := |rows| - 1;
    var before := SweepCalls(m, rows[..n], now, retention, reaps);
    if i < |before| {
      RemovalsJustified(m, rows[..n], now, retention, reaps, i);
      var c :| c in rows[..n] && c.id == before[i].id && Purgeable(c, now, retention);
      assert c in rows;
    } else {
      assert rows[n] in rows;
    }
  }

  predicate PurgeableAmong(rows: seq<StoredCluster>, now: nat, retention: nat, id: Id) {
    exists i | 0 <= i < |rows| :: rows[i].id == id && Purgeable(rows[i], now, retention)
  }

  lemma PurgeableSplits(rows: seq<StoredCluster>, now: nat, retention: nat, id: Id)
    requires rows != []
    ensures PurgeableAmong(rows, now, retention, id)
      <==> PurgeableAmong(rows[..|rows| - 1], now, retention, id)
           || (rows[|rows| - 1].id == id && Purgeable(rows[|rows| - 1], now, retention))
  {
    var rest := rows[..|rows| - 1];
    if PurgeableAmong(rest, now, retention, id) {
      var i :| 0 <= i < |rest| && rest[i].id == id && Purgeable(rest[i], now, retention);
      assert rows[i] == rest[i];
    }
    if PurgeableAmong(rows, now, retention, id) {
      var i :| 0 <= i < |rows| && rows[i].id == id && Purgeable(rows[i], now, retention);
      assert i < |rest| ==> rest[i] == rows[i];
    }
  }

  /** And nothing is left behind: of rows that are stored and listed once, those
      removed are exactly the purgeable ones whose policies were reaped. */
  lemma {:induction false} RemovedIff(m: CS.Clusters, rows: seq<StoredCluster>, now: nat, retention: nat,
                                      reaps: Id -> bool, id: Id)
    requires forall i | 0 <= i < |rows| :: rows[i].id in m
    requires forall i, j | 0 <= i < j < |rows| :: rows[i].id != rows[j].id
    ensures id in RemovedIn(SweepCalls(m, rows, now, retention, reaps))
      <==> reaps(id) && PurgeableAmong(rows, now, retention, id)
    decreases |rows|
  {
    if rows != [] {
      var n := |rows| - 1;
      var rest, c := rows[..n], rows[n];
      var before := SweepCalls(m, rest, now, retention, reaps);
      assert forall i | 0 <= i < n :: rest[i] == rows[i];
      RemovedIff(m, rest, now, retention, reaps, id);
      RemovedIff(m, rest, now, retention, reaps, c.id);
      PurgeableSplits(rows, now, retention, id);
      assert c.id !in RemovedIn(before);
      RemovedGrows(before, c.id, reaps(c.id));
      assert before + [] == before;
    }
  }

  /** A sweep right after any history of writes, on a clock not behind them: each
      removed row had been Terminated without a break for the whole retention
      window, was last observed gone, and had its policies reaped just before. */
  lemma SweepKeepsRetention(ws: seq<Write>, rows: seq<StoredCluster>, now: nat, retention: nat, reaps: Id -> bool,
                            i: nat)
    requires ListsAll(After(ws), rows)
    requires i < |SweepCalls(After(ws), rows, now, retention, reaps)|
    requires SweepCalls(After(ws), rows, now, retention, reaps)[i].Removed?
    ensures
      var calls := SweepCalls(After(ws), rows, now, retention, reaps);
      var id := calls[i].id;
      var k := StretchStart(ws, id);
      && i > 0 && calls[i - 1] == ReapPolicies(id, true)
      && id in After(ws) && (After(ws)[id].observedState.None? || After(ws)[id].observedState == Some(Terminated))
      && StretchFrom(ws, id, k) && ws[k - 1].SetDesired?
      && SatSub(now, ws[k - 1].now) >= retention
  {
    RemovalsJustified(After(ws), rows, now, retention, reaps, i);
    var id := SweepCalls(After(ws), rows, now, retention, reaps)[i].id;
    var c :| c in rows && c.id == id && Purgeable(c, now, retention);
    var j :| 0 <= j < |rows| && rows[j] == c;
    assert After(ws)[id] == c;
    StampIsStretchStart(ws, id);
  }

  /** And it removes everything that is due: after any history, a sweep over the stored
      rows removes exactly those that are Terminated since a write at least the
      retention window ago, were last observed gone, and whose policies it could
      reap. */
  lemma SweepIsExact(ws: seq<Write>, rows: seq<StoredCluster>, now: nat, retention: nat, reaps: Id -> bool, id: Id)
    requires ListsAll(After(ws), rows)
    ensures
      var m, k := After(ws), StretchStart(ws, id);
      id in RemovedIn(SweepCalls(m, rows, now, retention, reaps))
      <==> && reaps(id) && id in m && m[id].desired == WantTerminated
           && (m[id].observedState == None || m[id].observedState == Some(Terminated))
           && 1 <= k <= |ws| && ws[k - 1].SetDesired?
           && (retention == 0 || ws[k - 1].now + retention <= now)
  {
    var m := After(ws);
    RemovedIff(m, rows, now, retention, reaps, id);
    StampIsStretchStart(ws, id);
    if id in m {
      assert m[id].id == id && m[id] in rows;
      var i :| 0 <= i < |rows| && rows[i] == m[id];
      assert rows[i].id == id;
    }
    assert forall i | 0 <= i < |rows| && rows[i].id == id :: id in m && rows[i] == m[id];
  }

  // --- Writes between the listing and the removal ---

  /** A write that ends a Terminated stretch of the row. */
  predicate Breaks(w: Write, id: Id) {
    || (w.RemoveRow? && w.id == id)
    || (w.SetDesired? && w.id == id && !w.desired.WantTerminated?)
  }

  /** The row is Terminated now and after each of the writes. */
  predicate TerminalThroughout(m: CS.Clusters, ws: seq<Write>, id: Id) {
    forall n | 0 <= n <= |ws| :: Terminal(From(m, ws[..n]), id)
  }

  lemma ThroughoutFront(m: CS.Clusters, ws: seq<Write>, id: Id)
    requires ws != [] && TerminalThroughout(m, ws, id)
    ensures TerminalThroughout(m, ws[..|ws| - 1], id) && Terminal(From(m, ws), id)
  {
    var rest := ws[..|ws| - 1];
    assert ws[..|ws|] == ws;
    forall n | 0 <= n <= |rest| ensures Terminal(From(m, rest[..n]), id) {
      assert rest[..n] == ws[..n];
    }
  }

  lemma ThroughoutMore(m: CS.Clusters, ws: seq<Write>, id: Id)
    requires ws != [] && TerminalThroughout(m, ws[..|ws| - 1], id) && Terminal(From(m, ws), id)
    ensures TerminalThroughout(m, ws, id)
  {
    var rest := ws[..|ws| - 1];
    forall n | 0 <= n <= |ws| ensures Terminal(From(m, ws[..n]), id) {
      if n <= |rest| {
        assert rest[..n] == ws[..n];
      } else {
        assert ws[..n] == ws;
      }
    }
  }

  predicate Unbroken(ws: seq<Write>, id: Id) {
    forall i | 0 <= i < |ws| :: !Breaks(ws[i], id)
  }

  lemma UnbrokenSplits(ws: seq<Write>, id: Id)
    requires ws != []
    ensures Unbroken(ws, id) <==> Unbroken(ws[..|ws| - 1], id) && !Breaks(ws[|ws| - 1], id)
  {
    var rest := ws[..|ws| - 1];
    assert forall i | 0 <= i < |rest| :: rest[i] == ws[i];
  }

  /** Whether a row listed as Terminated is still in that stretch when its removal
      comes, whatever was written meanwhile: exactly when nothing broke it. */
  lemma {:induction false} StretchUnbrokenIff(m: CS.Clusters, ws: seq<Write>, id: Id)
    requires Terminal(m, id)
    ensures TerminalThroughout(m, ws, id) <==> Unbroken(ws, id)
    decreases |ws|
  {
    if ws != [] {
      var n := |ws| - 1;
      StretchUnbrokenIff(m, ws[..n], id);
      UnbrokenSplits(ws, id);
      if TerminalThroughout(m, ws[..n], id) {
        assert ws[..n][..n] == ws[..n];
        WriteBreaksIff(From(m, ws[..n]), ws[n], id);
        if !Breaks(ws[n], id) {
          ThroughoutMore(m, ws, id);
        }
      }
      if TerminalThroughout(m, ws, id) {
        ThroughoutFront(m, ws, id);
      }
    }
  }

  lemma WriteBreaksIff(m: CS.Clusters, w: Write, id: Id)
    requires Terminal(m, id)
    ensures Terminal(Do(m, w), id) <==> !Breaks(w, id)
  {
  }

  lemma {:induction false} FromConcat(m: CS.Clusters, a: seq<Write>, b: seq<Write>)
    ensures From(m, a + b) == From(From(m, a), b)
  {
    if b == [] {
      assert a + b == a;
    } else {
      assert (a + b)[..|a + b| - 1] == a + b[..|b| - 1];
      FromConcat(m, a, b[..|b| - 1]);
    }
  }

  lemma AfterMore(ws: seq<Write>, more: seq<Write>, n: nat)
    requires n <= |more|
    ensures After((ws + more)[..|ws| + n]) == From(After(ws), more[..n])
  {
    assert (ws + more)[..|ws| + n] == ws + more[..n];
    FromConcat(map[], ws, more[..n]);
  }

  /** The stretch a row is in goes on through later writes exactly when none breaks it. */
  lemma StretchGoesOnIff(ws: seq<Write>, more: seq<Write>, id: Id)
    requires Terminal(After(ws), id)
    ensures StretchFrom(ws + more, id, StretchStart(ws, id)) <==> Unbroken(more, id)
  {
    var k, all := StretchStart(ws, id), ws + more;
    StampIsStretchStart(ws, id);
    StretchUnbrokenIff(After(ws), more, id);
    assert all[..k - 1] == ws[..k - 1];
    if TerminalThroughout(After(ws), more, id) {
      forall n | k <= n <= |all| ensures Terminal(After(all[..n]), id) {
        if n <= |ws| {
          assert all[..n] == ws[..n];
        } else {
          AfterMore(ws, more, n - |ws|);
        }
      }
    }
    if StretchFrom(all, id, k) {
      forall n | 0 <= n <= |more| ensures Terminal(From(After(ws), more[..n]), id) {
        AfterMore(ws, more, n);
        assert Terminal(After(all[..|ws| + n]), id);
      }
    }
  }

  /** A sweep whose table has moved on since it listed: what it removes was, when
      listed, Terminated for the retention window and observed gone, and is
      still in that stretch if and only if no write since then broke it. The
      writes may include the sweep's own earlier removals. */
  lemma SweepOfMovedTable(ws: seq<Write>, more: seq<Write>, rows: seq<StoredCluster>, now: nat, retention: nat,
                          reaps: Id -> bool, i: nat)
    requires ListsAll(After(ws), rows)
    requires i < |SweepCalls(After(ws + more), rows, now, retention, reaps)|
    requires SweepCalls(After(ws + more), rows, now, retention, reaps)[i].Removed?
    ensures
      var calls := SweepCalls(After(ws + more), rows, now, retention, reaps);
      var id := calls[i].id;
      var k := StretchStart(ws, id);
      && i > 0 && calls[i - 1] == ReapPolicies(id, true)
      && id in After(ws) && (After(ws)[id].observedState.None? || After(ws)[id].observedState == Some(Terminated))
      && StretchFrom(ws, id, k) && ws[k - 1].SetDesired? && SatSub(now, ws[k - 1].now) >= retention
      && (StretchFrom(ws + more, id, k) <==> Unbroken(more, id))
  {
    RemovalsJustified(After(ws + more), rows, now, retention, reaps, i);
    var id := SweepCalls(After(ws + more), rows, now, retention, reaps)[i].id;
    var c :| c in rows && c.id == id && Purgeable(c, now, retention);
    var j :| 0 <= j < |rows| && rows[j] == c;
    assert After(ws)[id] == c;
    StampIsStretchStart(ws, id);
    StretchGoesOnIff(ws, more, id);
  }

  /** A purge and a new cluster of the same name in that gap: the sweep removes
      the new row, which is wanted Running. */
  lemma RecreatedRowIsSwept(m: CS.Clusters, id: Id, spec: ClusterSpec, at: nat, now: nat, retention: nat,
                            reaps: Id -> bool)
    requires id in m && m[id].id == id && Purgeable(m[id], now, retention) && reaps(id)
    ensures
      var after := From(m, [RemoveRow(id), Write.Upsert(id, spec, at)]);
      && id in after && after[id].desired.WantRunning?
      && id in RemovedIn(SweepCalls(after, [m[id]], now, retention, reaps))
  {
    var a, b := [RemoveRow(id)], [RemoveRow(id), Write.Upsert(id, spec, at)];
    assert a[..0] == [] && b[..1] == a;
    assert From(m, a) == CS.Remove(m, id);
    RemovedIff(From(m, b), [m[id]], now, retention, reaps, id);
    assert [m[id]][0].id == id;
  }
}
