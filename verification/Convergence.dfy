/** Against a provider that settles each call, one pass over every row leaves
    nothing to do: no later pass makes another mutating call. */
module Convergence {
  import opened Types
  import opened Keys
  import opened Reconcile
  import opened Outbox
  import opened Passes
  import CS = ClusterStore

  /** Every call succeeds and takes effect: an apply leaves a cluster at the
      row's generation that is not on its way down, and holds it suspended only
      under a queue; suspend and terminate leave nothing running. */
  predicate Settles(c: StoredCluster, env: Env) {
    && env.observes && env.reobserves && env.postures && env.applies && env.terminates && env.suspends
    && env.stop.NoStop?
    && env.afterApply.Some? && env.afterApply.value.generation == Some(c.generation)
    && env.afterApply.value.state !in {Terminated, Terminating}
    && (env.afterApply.value.state == Suspended ==> env.queued)
    && (env.afterSuspend.None? || env.afterSuspend.value.state in {Suspended, Terminated, Terminating})
    && (env.afterTerminate.None? || env.afterTerminate.value.state == Terminated)
  }

  /** A pass over this row has no mutating call to make: the decision asks for
      none, or it asks for an apply the outbox refuses. */
  predicate Quiet(w: World, c: StoredCluster, queued: bool) {
    var o := Lookup(w.backing, c.id);
    match c.desired
    case WantRunning =>
      || StateOf(o) == Some(Degraded)
      || !NeedsApply(StateOf(o), GenerationOf(o), c.generation, queued)
      || RefusedIn(w, c)
    case WantTerminated => o.None? || o.value.state == Terminated
    case WantSuspended => queued || o.None? || o.value.state in {Suspended, Terminated, Terminating}
  }

  /** The provider has what the row wants. A degraded cluster is reported, not
      re-applied, and a queued one may be held suspended. */
  predicate Attained(w: World, c: StoredCluster, queued: bool) {
    var o := Lookup(w.backing, c.id);
    match c.desired
    case WantRunning =>
      && o.Some? && o.value.state !in {Terminated, Terminating}
      && (o.value.state == Suspended ==> queued)
      && (o.value.state !in {Degraded, Suspended} && c.generation > 0 ==>
            o.value.generation.Some? && o.value.generation.value >= c.generation)
    case WantTerminated => o.Some? ==> o.value.state == Terminated
    case WantSuspended => !queued && o.Some? ==> o.value.state in {Suspended, Terminated, Terminating}
  }

  /** A quiet row has what it wants, or wants to run and is refused by the outbox. */
  lemma QuietIffAttained(w: World, c: StoredCluster, queued: bool)
    ensures Quiet(w, c, queued) <==> Attained(w, c, queued) || (c.desired.WantRunning? && RefusedIn(w, c))
  {}

  /** What decides quietness: desired state, generation and spec of the row. */
  predicate SameWish(c: StoredCluster, c': StoredCluster) {
    c'.id == c.id && c'.desired == c.desired && c'.generation == c.generation && c'.spec == c.spec
  }

  predicate SameWishes(m: CS.Clusters, m': CS.Clusters) {
    m'.Keys == m.Keys && forall id | id in m :: SameWish(m[id], m'[id])
  }

  lemma FinishKeeps(w: World, c: StoredCluster, now: nat, env: Env, action: Action, condition: Option<DriftCondition>)
    ensures var w' := Finish(w, c, now, env, action, condition);
      && w'.calls == w.calls && w'.backing == w.backing && w'.tables.intents == w.tables.intents
      && w'.tables.quarantined == w.tables.quarantined && SameWishes(w.tables.clusters, w'.tables.clusters)
  {
    var final := Lookup(w.backing, c.id);
    StatusKeepsWishes(w.tables.clusters, c, condition, final, AttemptAfter(c, action, StateOf(final), now), env.stop);
  }

  lemma StatusKeepsWishes(m: CS.Clusters, c: StoredCluster, condition: Option<DriftCondition>, final: Option<Backing>,
                          attempt: Option<(nat, nat)>, stop: StoreStop)
    ensures SameWishes(m, StatusRows(m, c, condition, final, attempt, stop))
  {
    var m1 := CS.RecordObservation(m, c.id, StateOf(final), GenerationOf(final));
    assert SameWishes(m, m1) && SameWishes(m, WithCondition(m1, c, condition));
  }

  /** A treatment touches its own row's status, its own intent and its own
      backing cluster, and nobody's wishes. */
  lemma TreatFrame(w: World, c: StoredCluster, now: nat, env: Env)
    ensures var w' := Treat(w, c, now, env);
      && SameWishes(w.tables.clusters, w'.tables.clusters)
      && w'.tables.quarantined == w.tables.quarantined
      && (forall id | id != c.id :: Lookup(w'.backing, id) == Lookup(w.backing, id))
      && (forall key | key != IntentKey(c) :: key in w.tables.intents <==> key in w'.tables.intents)
      && (forall key | key != IntentKey(c) && key in w.tables.intents ::
            w'.tables.intents[key] == w.tables.intents[key])
  {
    if !(BackedOff(c, now) || !env.observes || env.stop.AtCheck? || w.tables.quarantined || env.stop.AtResolve?) {
      match Decide(c, Lookup(w.backing, c.id), env.queued, env.ownedFields)
      case Apply => ApplyFrame(w, c, now, env);
      case Terminate =>
        var done := w.(backing := Put(w.backing, c.id, env.afterTerminate), calls := w.calls + [TerminateCall(c.id)]);
        FinishKeeps(done, c, now, env, TerminatedCluster, None);
      case Suspend =>
        var done := w.(backing := Put(w.backing, c.id, env.afterSuspend), calls := w.calls + [SuspendCall(c.id)]);
        FinishKeeps(done, c, now, env, SuspendedCluster, None);
      case Alarm(condition) => FinishKeeps(w, c, now, env, Drift, Some(condition));
      case Leave => FinishKeeps(w, c, now, env, NoOp, None);
    }
  }

  lemma ApplyFrame(w: World, c: StoredCluster, now: nat, env: Env)
    ensures var w' := ApplyRow(w, c, now, env);
      && SameWishes(w.tables.clusters, w'.tables.clusters)
      && w'.tables.quarantined == w.tables.quarantined
      && (forall id | id != c.id :: Lookup(w'.backing, id) == Lookup(w.backing, id))
      && (forall key | key != IntentKey(c) :: key in w.tables.intents <==> key in w'.tables.intents)
      && (forall key | key != IntentKey(c) && key in w.tables.intents ::
            w'.tables.intents[key] == w.tables.intents[key])
  {
    if env.token && !env.stop.AtBegin? && !RefusedIn(w, c) && env.postures && env.applies && !env.stop.AtComplete? {
      FinishKeeps(Completed(w, c, env), c, now, env, Applied, None);
    }
  }

  /** The world once the apply has been answered and the intent completed. */
  function Completed(w: World, c: StoredCluster, env: Env): World {
    var m := CS.BeginIntent(w.tables.intents, IntentKey(c), SpecText(c.spec), env.clock);
    World(w.tables.(intents := CS.CompleteIntent(m, IntentKey(c), env.response, env.clock)),
          Put(w.backing, c.id, env.afterApply),
          w.calls + [PostureCall] + [ApplyCall(IntentKey(c), c.id, c.spec, c.generation)])
  }

  /** A quiet row gets no mutating call, whatever the moment and the outcome. */
  lemma QuietMakesNoCall(w: World, c: StoredCluster, now: nat, env: Env)
    requires Quiet(w, c, env.queued)
    ensures var w' := Treat(w, c, now, env);
      w'.calls == w.calls && w'.backing == w.backing && w'.tables.intents == w.tables.intents
  {
    if !(BackedOff(c, now) || !env.observes || env.stop.AtCheck? || w.tables.quarantined || env.stop.AtResolve?) {
      match Decide(c, Lookup(w.backing, c.id), env.queued, env.ownedFields)
      case Apply => assert RefusedIn(w, c);
      case Alarm(condition) => FinishKeeps(w, c, now, env, Drift, Some(condition));
      case Leave => FinishKeeps(w, c, now, env, NoOp, None);
      case _ => assert false;
    }
  }

  /** One settled treatment quiets its row, from any store and provider state. */
  lemma TreatQuiets(w: World, c: StoredCluster, now: nat, env: Env)
    requires !BackedOff(c, now) && !w.tables.quarantined && env.token && Settles(c, env)
    ensures Quiet(Treat(w, c, now, env), c, env.queued)
  {
    match Decide(c, Lookup(w.backing, c.id), env.queued, env.ownedFields)
    case Apply => ApplyQuiets(w, c, now, env);
    case Terminate =>
      var done := w.(backing := Put(w.backing, c.id, env.afterTerminate), calls := w.calls + [TerminateCall(c.id)]);
      FinishKeeps(done, c, now, env, TerminatedCluster, None);
    case Suspend =>
      var done := w.(backing := Put(w.backing, c.id, env.afterSuspend), calls := w.calls + [SuspendCall(c.id)]);
      FinishKeeps(done, c, now, env, SuspendedCluster, None);
    case Alarm(condition) => FinishKeeps(w, c, now, env, Drift, Some(condition));
    case Leave => FinishKeeps(w, c, now, env, NoOp, None);
  }

  lemma ApplyQuiets(w: World, c: StoredCluster, now: nat, env: Env)
    requires env.token && Settles(c, env) && c.desired.WantRunning?
    ensures Quiet(ApplyRow(w, c, now, env), c, env.queued)
  {
    if !RefusedIn(w, c) {
      FinishKeeps(Completed(w, c, env), c, now, env, Applied, None);
    }
  }

  /** Treating one row leaves every other quiet row quiet. */
  lemma OthersStayQuiet(w: World, c: StoredCluster, now: nat, env: Env, d: StoredCluster, queued: bool)
    requires Quiet(w, d, queued) && d.id != c.id
    ensures Quiet(Treat(w, c, now, env), d, queued)
  {
    TreatFrame(w, c, now, env);
    if IntentKey(c) == IntentKey(d) {
      ClusterKeyInjective(c.id, c.generation, d.id, d.generation);
    }
  }

  /** The outbox's refusals outlast a treatment: of the row itself and of others. */
  lemma RefusalStays(w: World, c: StoredCluster, now: nat, env: Env, d: StoredCluster)
    requires d.id != c.id || d == c
    ensures RefusedIn(Treat(w, c, now, env), d) <==> RefusedIn(w, d)
  {
    if d == c {
      OwnIntent(w, c, now, env);
    } else {
      TreatFrame(w, c, now, env);
      if IntentKey(c) == IntentKey(d) {
        ClusterKeyInjective(c.id, c.generation, d.id, d.generation);
      }
    }
  }

  /** A treatment leaves the row's own intent alone, or on file with its own spec. */
  lemma OwnIntent(w: World, c: StoredCluster, now: nat, env: Env)
    ensures RefusedIn(Treat(w, c, now, env), c) <==> RefusedIn(w, c)
  {
    if !(BackedOff(c, now) || !env.observes || env.stop.AtCheck? || w.tables.quarantined || env.stop.AtResolve?) {
      match Decide(c, Lookup(w.backing, c.id), env.queued, env.ownedFields)
      case Apply =>
        if env.token && !env.stop.AtBegin? && !RefusedIn(w, c) && env.postures && env.applies && !env.stop.AtComplete? {
          FinishKeeps(Completed(w, c, env), c, now, env, Applied, None);
        }
      case Terminate =>
        FinishKeeps(w.(backing := Put(w.backing, c.id, env.afterTerminate), calls := w.calls + [TerminateCall(c.id)]),
                    c, now, env, TerminatedCluster, None);
      case Suspend =>
        FinishKeeps(w.(backing := Put(w.backing, c.id, env.afterSuspend), calls := w.calls + [SuspendCall(c.id)]),
                    c, now, env, SuspendedCluster, None);
      case Alarm(condition) => FinishKeeps(w, c, now, env, Drift, Some(condition));
      case Leave => FinishKeeps(w, c, now, env, NoOp, None);
    }
  }

  lemma {:induction false} RefusalsStay(w: World, rows: seq<StoredCluster>, now: nat, envs: Id -> Env, d: StoredCluster)
    requires forall i | 0 <= i < |rows| :: rows[i].id != d.id || rows[i] == d
    ensures RefusedIn(TreatAll(w, rows, now, envs), d) <==> RefusedIn(w, d)
  {
    if rows != [] {
      var prefix, c := rows[..|rows| - 1], rows[|rows| - 1];
      assert forall i | 0 <= i < |prefix| :: prefix[i] == rows[i];
      RefusalsStay(w, prefix, now, envs, d);
      RefusalStays(TreatAll(w, prefix, now, envs), c, now, envs(c.id), d);
    }
  }

  predicate Distinct(rows: seq<StoredCluster>) {
    forall i, j | 0 <= i < j < |rows| :: rows[i].id != rows[j].id
  }

  /** One pass over distinct rows quiets all of them. */
  lemma {:induction false} PassQuietsAll(w: World, rows: seq<StoredCluster>, now: nat, envs: Id -> Env)
    requires Distinct(rows) && !w.tables.quarantined
    requires forall i | 0 <= i < |rows| ::
      !BackedOff(rows[i], now) && envs(rows[i].id).token && Settles(rows[i], envs(rows[i].id))
    ensures var w' := TreatAll(w, rows, now, envs);
      && SameWishes(w.tables.clusters, w'.tables.clusters) && !w'.tables.quarantined
      && forall i | 0 <= i < |rows| :: Quiet(w', rows[i], envs(rows[i].id).queued)
  {
    if rows != [] {
      var prefix, c := rows[..|rows| - 1], rows[|rows| - 1];
      PassQuietsAll(w, prefix, now, envs);
      var w1 := TreatAll(w, prefix, now, envs);
      TreatFrame(w1, c, now, envs(c.id));
      TreatQuiets(w1, c, now, envs(c.id));
      forall i | 0 <= i < |prefix| ensures Quiet(Treat(w1, c, now, envs(c.id)), rows[i], envs(rows[i].id).queued) {
        assert prefix[i] == rows[i];
        OthersStayQuiet(w1, c, now, envs(c.id), rows[i], envs(rows[i].id).queued);
      }
    }
  }

  /** Every stored row is quiet under its queue assignment. */
  predicate AllQuiet(w: World, queued: Id -> bool) {
    forall id | id in w.tables.clusters ::
      w.tables.clusters[id].id == id && Quiet(w, w.tables.clusters[id], queued(id))
  }

  /** A full pass from an all-quiet world makes no mutating call and leaves the
      world all quiet. */
  lemma {:induction false} QuietPass(w: World, rows: seq<StoredCluster>, now: nat, envs: Id -> Env, queued: Id -> bool)
    requires AllQuiet(w, queued)
    requires forall i | 0 <= i < |rows| ::
      && rows[i].id in w.tables.clusters && SameWish(w.tables.clusters[rows[i].id], rows[i])
      && envs(rows[i].id).queued == queued(rows[i].id)
    ensures var w' := TreatAll(w, rows, now, envs);
      && w'.calls == w.calls && w'.backing == w.backing && w'.tables.intents == w.tables.intents
      && SameWishes(w.tables.clusters, w'.tables.clusters) && AllQuiet(w', queued)
  {
    if rows != [] {
      var prefix, c := rows[..|rows| - 1], rows[|rows| - 1];
      forall i | 0 <= i < |prefix| ensures prefix[i] == rows[i] {}
      QuietPass(w, prefix, now, envs, queued);
      var w1 := TreatAll(w, prefix, now, envs);
      assert Quiet(w1, c, queued(c.id)) by {
        assert Quiet(w1, w1.tables.clusters[c.id], queued(c.id));
        assert SameWish(w.tables.clusters[c.id], w1.tables.clusters[c.id]);
      }
      QuietMakesNoCall(w1, c, now, envs(c.id));
      TreatFrame(w1, c, now, envs(c.id));
      var w2 := Treat(w1, c, now, envs(c.id));
      forall id | id in w2.tables.clusters
        ensures w2.tables.clusters[id].id == id && Quiet(w2, w2.tables.clusters[id], queued(id))
      {
        assert SameWish(w1.tables.clusters[id], w2.tables.clusters[id]);
      }
    }
  }

  /** One later pass: when it runs, what order the list has, what it meets. */
  datatype Later = Later(rows: seq<StoredCluster>, now: nat, envs: Id -> Env)

  function AfterAll(w: World, later: seq<Later>): World {
    if later == [] then w
    else
      var l := later[|later| - 1];
      TreatAll(AfterAll(w, later[..|later| - 1]), l.rows, l.now, l.envs)
  }

  /** Each later pass lists the rows stored when it starts and finds the same
      queue assignments; nothing else about it is assumed. */
  predicate Faithful(w: World, later: seq<Later>, queued: Id -> bool) {
    forall k | 0 <= k < |later| ::
      && ListsAll(AfterAll(w, later[..k]).tables.clusters, later[k].rows)
      && forall id | id in w.tables.clusters :: later[k].envs(id).queued == queued(id)
  }

  lemma {:induction false} QuietForever(w: World, later: seq<Later>, queued: Id -> bool)
    requires AllQuiet(w, queued) && Faithful(w, later, queued)
    ensures var w' := AfterAll(w, later);
      w'.calls == w.calls && SameWishes(w.tables.clusters, w'.tables.clusters) && AllQuiet(w', queued)
  {
    if later != [] {
      var prefix, l := later[..|later| - 1], later[|later| - 1];
      assert forall k | 0 <= k < |prefix| :: prefix[..k] == later[..k] && prefix[k] == later[k];
      QuietForever(w, prefix, queued);
      var w1 := AfterAll(w, prefix);
      forall i | 0 <= i < |l.rows| ensures
        && l.rows[i].id in w1.tables.clusters && SameWish(w1.tables.clusters[l.rows[i].id], l.rows[i])
        && l.envs(l.rows[i].id).queued == queued(l.rows[i].id)
      {
        assert l.rows[i].id in w.tables.clusters;
      }
      QuietPass(w1, l.rows, l.now, l.envs, queued);
    }
  }

  /** From any store and provider state: one pass over everything, with tokens,
      no backoff, no quarantine and a provider that settles, and every further
      pass, at any time and under any outcome, makes no mutating call, for
      rows wanted running, suspended or terminated, queued or not; and the
      provider has what each row wants, unless the outbox refused it from the
      start. */
  lemma {:induction false} OnePassConverges(w: World, rows: seq<StoredCluster>, now: nat, envs: Id -> Env,
                                            later: seq<Later>)
    requires ListsAll(w.tables.clusters, rows) && !w.tables.quarantined
    requires forall i | 0 <= i < |rows| ::
      !BackedOff(rows[i], now) && envs(rows[i].id).token && Settles(rows[i], envs(rows[i].id))
    requires Faithful(TreatAll(w, rows, now, envs), later, id => envs(id).queued)
    ensures var w' := TreatAll(w, rows, now, envs); AfterAll(w', later).calls == w'.calls
    ensures var w' := TreatAll(w, rows, now, envs);
      forall i | 0 <= i < |rows| :: !RefusedIn(w, rows[i]) ==> Attained(w', rows[i], envs(rows[i].id).queued)
  {
    PassQuietsAll(w, rows, now, envs);
    var w' := TreatAll(w, rows, now, envs);
    var queued := id => envs(id).queued;
    forall id | id in w'.tables.clusters
      ensures w'.tables.clusters[id].id == id && Quiet(w', w'.tables.clusters[id], queued(id))
    {
      assert SameWish(w.tables.clusters[id], w'.tables.clusters[id]);
      var i :| 0 <= i < |rows| && rows[i] == w.tables.clusters[id];
      assert Quiet(w', rows[i], envs(rows[i].id).queued);
    }
    QuietForever(w', later, queued);
    forall i | 0 <= i < |rows| && !RefusedIn(w, rows[i]) ensures Attained(w', rows[i], envs(rows[i].id).queued) {
      assert Quiet(w', rows[i], envs(rows[i].id).queued);
      RefusalsStay(w, rows, now, envs, rows[i]);
      QuietIffAttained(w', rows[i], envs(rows[i].id).queued);
    }
  }
}
