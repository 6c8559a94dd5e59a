/** How often a cluster that never comes up is re-applied: the spacing of its
    applies and how many fit in any stretch of time. */
module BackoffBounds {
  import opened Types
  import opened Reconcile
  import opened Outbox
  import opened Passes
  import CS = ClusterStore

  lemma {:induction false} Pow2Grows(m: nat, n: nat)
    requires m <= n
    ensures Pow2(m) <= Pow2(n)
  {
    if m < n {
      Pow2Grows(m, n - 1);
    }
  }

  lemma Pow2Of20()
    ensures Pow2(6) == 64 && Pow2(20) == 1048576
  {
    assert Pow2(4) == 16;
    assert Pow2(8) == 256;
    assert Pow2(12) == 4096;
    assert Pow2(16) == 65536;
  }

  /** The capped shift changes nothing: for every failure count the delay is
      min(300, 5 * 2^(n-1)), and the multiplication never saturates. */
  lemma BackoffClosedForm(n: nat)
    requires n >= 1
    ensures BackoffSecs(n) == Min(300, 5 * Pow2(n - 1))
    ensures BACKOFF_BASE_SECS * Pow2(Min(SatSub(n, 1), 20)) < U64_MAX
  {
    Pow2Of20();
    if n - 1 <= 20 {
      Pow2Grows(n - 1, 20);
    } else {
      Pow2Grows(20, n - 1);
    }
  }

  lemma BackoffGrows(m: nat, n: nat)
    requires 1 <= m <= n
    ensures BackoffSecs(m) <= BackoffSecs(n)
  {
    BackoffClosedForm(m);
    BackoffClosedForm(n);
    Pow2Grows(m - 1, n - 1);
  }

  lemma BackoffAtCeiling(n: nat)
    requires n >= 7
    ensures BackoffSecs(n) == 300
  {
    BackoffClosedForm(n);
    Pow2Of20();
    Pow2Grows(6, n - 1);
  }

  /** Nothing there, or on its way down. */
  predicate Stuck(o: Option<Backing>) {
    o.None? || o.value.state == Terminated || o.value.state == Terminating
  }

  /** What happens around one row: a pass lists it, the pass comes to it, its spec is
      written, its desired state is flipped, the provider's copy changes. Whatever
      falls between listing and treatment meets a treatment of the older row. */
  datatype Tick =
    | ListTick(now: nat)
    | TreatTick(env: Env)
    | WriteTick(spec: ClusterSpec, clock: nat)
    | FlipTick(desired: DesiredState, clock: nat)
    | OutsideTick(after: Option<Backing>)

  /** The world, and the row the pass under way listed and has not come to yet. */
  datatype Track = Track(w: World, listed: Option<StoredCluster>, now: nat)

  /** No store call fails once the apply is out. */
  predicate Accounts(env: Env) {
    !(env.stop.AtComplete? || env.stop.AtRecord? || env.stop.AtCondition? || env.stop.AtAttempt?)
  }

  /** The provider accepts applies but the cluster never comes up, and what an
      apply came to is written down. */
  predicate NeverProgresses(t: Tick) {
    match t
    case ListTick(now) => now + BACKOFF_CEIL_SECS <= U64_MAX
    case TreatTick(env) =>
      env.applies && env.reobserves && Accounts(env) && Stuck(env.afterApply) && Stuck(env.afterTerminate)
    case WriteTick(_, _) => true
    case FlipTick(_, _) => true
    case OutsideTick(after) => Stuck(after)
  }

  /** A new listing replaces one whose pass never came to the row. */
  function Beat(k: Track, id: Id, t: Tick): Track {
    match t
    case ListTick(now) =>
      if id in k.w.tables.clusters then Track(k.w, Some(k.w.tables.clusters[id]), now) else k.(listed := None)
    case TreatTick(env) =>
      if k.listed.Some? then k.(w := Treat(k.w, k.listed.value, k.now, env), listed := None) else k
    case WriteTick(spec, clock) => k.(w := SetClusters(k.w, CS.Upsert(k.w.tables.clusters, id, spec, clock)))
    case FlipTick(desired, clock) => k.(w := SetClusters(k.w, CS.SetDesired(k.w.tables.clusters, id, desired, clock)))
    case OutsideTick(after) => k.(w := k.w.(backing := Put(k.w.backing, id, after)))
  }

  function Beats(k: Track, id: Id, ticks: seq<Tick>): Track {
    if ticks == [] then k else Beat(Beats(k, id, ticks[..|ticks| - 1]), id, ticks[|ticks| - 1])
  }

  /** The provider was handed an apply between the two worlds. */
  predicate NewApply(w: World, w': World) {
    |w.calls| < |w'.calls| && w'.calls[|w'.calls| - 1].ApplyCall?
  }

  /** When the row was applied, pass by pass. */
  function ApplyTimes(k: Track, id: Id, ticks: seq<Tick>): seq<nat> {
    if ticks == [] then []
    else
      var before, t := Beats(k, id, ticks[..|ticks| - 1]), ticks[|ticks| - 1];
      ApplyTimes(k, id, ticks[..|ticks| - 1]) + if NewApply(before.w, Beat(before, id, t).w) then [before.now] else []
  }

  function Failures(start: nat, applies: nat): nat {
    Min(start + applies, U32_MAX)
  }

  /** The row's backoff columns tell how often it was applied and when it may be again. */
  predicate Counted(w: World, id: Id, start: nat, times: seq<nat>) {
    && id in w.tables.clusters && w.tables.clusters[id].id == id
    && Stuck(Lookup(w.backing, id))
    && Columns(w.tables.clusters[id], start, times)
  }

  predicate Columns(c: StoredCluster, start: nat, times: seq<nat>) {
    && c.failureCount == Failures(start, |times|)
    && (times != [] ==> c.nextAttemptAt == times[|times| - 1] + BackoffSecs(Failures(start, |times|)))
  }

  /** A listed row is of any spec and desired state, and its backoff columns are current. */
  predicate OnTrack(k: Track, id: Id, start: nat, times: seq<nat>) {
    && Counted(k.w, id, start, times)
    && (k.listed.Some? ==>
          k.listed.value.id == id && Columns(k.listed.value, start, times) && k.now + BACKOFF_CEIL_SECS <= U64_MAX)
  }

  lemma FinishAccounts(w: World, c: StoredCluster, now: nat, env: Env)
    requires c.id in w.tables.clusters && env.reobserves && Accounts(env) && Stuck(Lookup(w.backing, c.id))
    ensures var w' := Finish(w, c, now, env, Applied, None);
      var failures := if c.failureCount >= U32_MAX then U32_MAX else c.failureCount + 1;
      && c.id in w'.tables.clusters
      && w'.tables.clusters[c.id] == w.tables.clusters[c.id].(
           observedState := w'.tables.clusters[c.id].observedState,
           observedGeneration := w'.tables.clusters[c.id].observedGeneration,
           condition := w'.tables.clusters[c.id].condition,
           failureCount := failures, nextAttemptAt := SatAdd(now, BackoffSecs(failures)))
      && w'.backing == w.backing && w'.calls == w.calls
  {}

  /** A treatment of a stuck row either applies and pushes the next attempt out, or
      changes nothing about it. */
  lemma PassCounts(w: World, c: StoredCluster, now: nat, env: Env, start: nat, times: seq<nat>)
    requires Counted(w, c.id, start, times) && Columns(c, start, times) && start <= U32_MAX
    requires NeverProgresses(TreatTick(env)) && now + BACKOFF_CEIL_SECS <= U64_MAX
    ensures var w' := Treat(w, c, now, env);
      if NewApply(w, w')
      then Counted(w', c.id, start, times + [now]) && c.nextAttemptAt <= now
      else Counted(w', c.id, start, times)
  {
    if !BackedOff(c, now) && env.observes {
      if env.stop.AtCheck? || w.tables.quarantined || env.stop.AtResolve? {
        assert Treat(w, c, now, env).calls == w.calls;
      } else if c.desired.WantRunning? {
        assert Decide(c, Lookup(w.backing, c.id), env.queued, env.ownedFields).Apply?;
        ApplyCounts(w, c, now, env, start, times);
      } else {
        DownCounts(w, c, now, env, start, times);
      }
    }
  }

  /** A row that is not wanted up is at most terminated, and not accounted. */
  lemma DownCounts(w: World, c: StoredCluster, now: nat, env: Env, start: nat, times: seq<nat>)
    requires Counted(w, c.id, start, times) && !c.desired.WantRunning? && NeverProgresses(TreatTick(env))
    ensures var w' := Acting(w, c, now, env, Decide(c, Lookup(w.backing, c.id), env.queued, env.ownedFields));
      !NewApply(w, w') && Counted(w', c.id, start, times)
  {
    var decision := Decide(c, Lookup(w.backing, c.id), env.queued, env.ownedFields);
    if decision.Terminate? {
      var done := w.(backing := Put(w.backing, c.id, env.afterTerminate), calls := w.calls + [TerminateCall(c.id)]);
      FinishKeepsCount(done, c, now, env, TerminatedCluster);
    } else {
      FinishKeepsCount(w, c, now, env, NoOp);
    }
  }

  lemma FinishKeepsCount(w: World, c: StoredCluster, now: nat, env: Env, action: Action)
    requires c.id in w.tables.clusters && !c.desired.WantRunning? && (action.NoOp? || action.TerminatedCluster?)
    ensures var w' := Finish(w, c, now, env, action, None);
      && w'.calls == w.calls && w'.backing == w.backing && c.id in w'.tables.clusters
      && w'.tables.clusters[c.id].id == w.tables.clusters[c.id].id
      && w'.tables.clusters[c.id].failureCount == w.tables.clusters[c.id].failureCount
      && w'.tables.clusters[c.id].nextAttemptAt == w.tables.clusters[c.id].nextAttemptAt
  {}

  lemma ApplyCounts(w: World, c: StoredCluster, now: nat, env: Env, start: nat, times: seq<nat>)
    requires Counted(w, c.id, start, times) && Columns(c, start, times) && start <= U32_MAX
    requires NeverProgresses(TreatTick(env)) && now + BACKOFF_CEIL_SECS <= U64_MAX
    ensures var w' := ApplyRow(w, c, now, env);
      if NewApply(w, w') then Counted(w', c.id, start, times + [now]) else Counted(w', c.id, start, times)
  {
    if env.token && !env.stop.AtBegin? && !RefusedIn(w, c) && env.postures {
      var m := CS.BeginIntent(w.tables.intents, IntentKey(c), SpecText(c.spec), env.clock);
      var done := World(w.tables.(intents := CS.CompleteIntent(m, IntentKey(c), env.response, env.clock)),
                        Put(w.backing, c.id, env.afterApply),
                        w.calls + [PostureCall] + [ApplyCall(IntentKey(c), c.id, c.spec, c.generation)]);
      assert ApplyRow(w, c, now, env) == Finish(done, c, now, env, Applied, None);
      FinishAccounts(done, c, now, env);
      BackoffGrows(1, Failures(start, |times| + 1));
      assert BackoffSecs(Failures(start, |times| + 1)) <= 300;
    } else {
      assert !NewApply(w, ApplyRow(w, c, now, env));
    }
  }

  /** Listing takes the columns along, writes keep them, and a stuck copy stays stuck. */
  lemma OtherTicksCount(k: Track, id: Id, t: Tick, start: nat, times: seq<nat>)
    requires OnTrack(k, id, start, times) && NeverProgresses(t) && !t.TreatTick?
    ensures OnTrack(Beat(k, id, t), id, start, times) && !NewApply(k.w, Beat(k, id, t).w)
  {}

  /** Each apply comes no earlier than the delay the one before it earned. */
  predicate Spread(start: nat, times: seq<nat>) {
    forall j | 0 < j < |times| :: times[j - 1] + BackoffSecs(Failures(start, j)) <= times[j]
  }

  lemma {:induction false} RunCounts(k: Track, id: Id, start: nat, ticks: seq<Tick>)
    requires OnTrack(k, id, start, []) && start <= U32_MAX
    requires forall t | t in ticks :: NeverProgresses(t)
    ensures OnTrack(Beats(k, id, ticks), id, start, ApplyTimes(k, id, ticks))
    ensures Spread(start, ApplyTimes(k, id, ticks))
  {
    if ticks != [] {
      var prefix, t := ticks[..|ticks| - 1], ticks[|ticks| - 1];
      RunCounts(k, id, start, prefix);
      assert t in ticks;
      TickCounts(Beats(k, id, prefix), id, t, start, ApplyTimes(k, id, prefix));
    }
  }

  lemma TickCounts(k: Track, id: Id, t: Tick, start: nat, times: seq<nat>)
    requires OnTrack(k, id, start, times) && Spread(start, times) && start <= U32_MAX && NeverProgresses(t)
    ensures var times' := times + if NewApply(k.w, Beat(k, id, t).w) then [k.now] else [];
      OnTrack(Beat(k, id, t), id, start, times') && Spread(start, times')
  {
    assert times + [] == times;
    if !t.TreatTick? {
      OtherTicksCount(k, id, t, start, times);
    } else if k.listed.Some? {
      PassCounts(k.w, k.listed.value, k.now, t.env, start, times);
    }
  }

  /** Against a provider that accepts applies but never progresses, applies n and
      n+1 of one cluster are at least min(300, 5 * 2^(n-1)) seconds apart,
      whatever passes, writes, flips and provider changes come in between, also
      between the listing of a row and its treatment. */
  lemma AppliesSpreadOut(k: Track, id: Id, start: nat, ticks: seq<Tick>)
    requires OnTrack(k, id, start, []) && start <= U32_MAX
    requires forall t | t in ticks :: NeverProgresses(t)
    ensures var times := ApplyTimes(k, id, ticks);
      forall n | 1 <= n < |times| :: times[n - 1] + Min(300, 5 * Pow2(n - 1)) <= times[n]
  {
    RunCounts(k, id, start, ticks);
    SpreadInSeconds(start, ApplyTimes(k, id, ticks));
  }

  lemma SpreadInSeconds(start: nat, times: seq<nat>)
    requires Spread(start, times) && start <= U32_MAX
    ensures forall k | 1 <= k < |times| :: times[k - 1] + Min(300, 5 * Pow2(k - 1)) <= times[k]
  {
    forall k | 1 <= k < |times| ensures times[k - 1] + Min(300, 5 * Pow2(k - 1)) <= times[k] {
      BackoffClosedForm(k);
      if k <= Failures(start, k) {
        BackoffGrows(k, Failures(start, k));
      } else {
        BackoffAtCeiling(Failures(start, k));
      }
    }
  }

  lemma {:induction false} SlowSteps(start: nat, times: seq<nat>, i: nat, n: nat)
    requires Spread(start, times) && i + n < |times|
    ensures times[i] + (if n <= 6 then 0 else 300 * (n - 6)) <= times[i + n]
  {
    if n > 0 {
      SlowSteps(start, times, i, n - 1);
      assert times[i + n - 1] + BackoffSecs(Failures(start, i + n)) <= times[i + n];
      if n > 6 {
        BackoffAtCeiling(Failures(start, i + n));
      }
    }
  }

  /** Backoff is the row's: removed and created again, it may be applied at once. */
  lemma RecreationForgetsBackoff(m: CS.Clusters, id: Id, spec: ClusterSpec, clock: nat, now: nat)
    ensures var c := CS.Upsert(CS.Remove(m, id), id, spec, clock)[id];
      c.failureCount == 0 && c.desired.WantRunning? && !BackedOff(c, now)
  {}

  /** Any T seconds hold at most 7 + T div 300 applies of one such cluster. */
  lemma AppliesInAWindow(k: Track, id: Id, start: nat, ticks: seq<Tick>, i: nat, j: nat, T: nat)
    requires OnTrack(k, id, start, []) && start <= U32_MAX
    requires forall t | t in ticks :: NeverProgresses(t)
    requires i <= j < |ApplyTimes(k, id, ticks)|
    requires ApplyTimes(k, id, ticks)[j] - ApplyTimes(k, id, ticks)[i] <= T
    ensures j - i + 1 <= 7 + T / 300
  {
    RunCounts(k, id, start, ticks);
    SlowSteps(start, ApplyTimes(k, id, ticks), i, j - i);
  }

  /** No store call the treatment still has to make after the apply fails. */
  predicate WrittenDown(c: StoredCluster, env: Env) {
    && !env.stop.AtComplete? && !env.stop.AtRecord? && !env.stop.AtAttempt?
    && (env.stop.AtCondition? ==> c.condition == None)
  }

  /** An apply counts towards the backoff if and only if the provider accepted
      it, the row was re-observed, the cluster was still down and the store took
      all of it: an apply that errors leaves the row free to be applied again
      at once. */
  lemma AttemptCountedIff(w: World, c: StoredCluster, now: nat, env: Env)
    requires c.id in w.tables.clusters && w.tables.clusters[c.id].failureCount == c.failureCount < U32_MAX
    requires NewApply(w, Treat(w, c, now, env))
    ensures var w' := Treat(w, c, now, env);
      && c.id in w'.tables.clusters
      && (w'.tables.clusters[c.id].failureCount == c.failureCount + 1
          <==> env.applies && env.reobserves && Stuck(env.afterApply) && WrittenDown(c, env))
      && (!env.applies ==> w'.tables.clusters == w.tables.clusters)
  {
    OtherCallsAreNotApplies(w, c, now, env);
    assert Treat(w, c, now, env) == ApplyRow(w, c, now, env);
    if env.applies && !env.stop.AtComplete? && env.reobserves && !env.stop.AtRecord? {
      var m := CS.BeginIntent(w.tables.intents, IntentKey(c), SpecText(c.spec), env.clock);
      var done := World(w.tables.(intents := CS.CompleteIntent(m, IntentKey(c), env.response, env.clock)),
                        Put(w.backing, c.id, env.afterApply),
                        w.calls + [PostureCall] + [ApplyCall(IntentKey(c), c.id, c.spec, c.generation)]);
      assert ApplyRow(w, c, now, env) == Finish(done, c, now, env, Applied, None);
      var attempt := AttemptAfter(c, Applied, StateOf(env.afterApply), now);
      assert Lookup(done.backing, c.id) == env.afterApply;
      StatusCounts(w.tables.clusters, c, env.afterApply, attempt, env.stop);
      AttemptOfApply(c, env.afterApply, now);
    }
  }

  lemma StatusCounts(m: CS.Clusters, c: StoredCluster, final: Option<Backing>, attempt: Option<(nat, nat)>,
                     stop: StoreStop)
    requires c.id in m && m[c.id].failureCount == c.failureCount
    ensures var m' := StatusRows(m, c, None, final, attempt, stop);
      c.id in m' && m'[c.id].failureCount ==
        if attempt.None? || stop.AtAttempt? || (stop.AtCondition? && c.condition != None) then c.failureCount
        else attempt.value.0
  {}

  lemma AttemptOfApply(c: StoredCluster, final: Option<Backing>, now: nat)
    requires c.failureCount < U32_MAX
    ensures var attempt := AttemptAfter(c, Applied, StateOf(final), now);
      (attempt.Some? && attempt.value.0 == c.failureCount + 1) <==> Stuck(final)
  {}

  lemma OtherCallsAreNotApplies(w: World, c: StoredCluster, now: nat, env: Env)
    requires NewApply(w, Treat(w, c, now, env))
    ensures !BackedOff(c, now) && env.observes && !w.tables.quarantined
    ensures !env.stop.AtCheck? && !env.stop.AtResolve? && !env.stop.AtBegin?
    ensures env.token && !RefusedIn(w, c) && env.postures
    ensures Decide(c, Lookup(w.backing, c.id), env.queued, env.ownedFields).Apply?
  {}
}
