/** One uninterrupted treatment of a row by the reconcile engine, from the
    backoff gate to the backoff accounting, and the object that performs it. */
module Passes {
  import opened Types
  import opened Keys
  import opened Reconcile
  import opened Outbox
  import CS = ClusterStore

  datatype World = World(tables: CS.Tables, backing: map<Id, Backing>, calls: seq<Call>)

  /** The store call of a treatment that fails, leaving no trace, if it is made. */
  datatype StoreStop =
    | NoStop | AtCheck | AtFence | AtResolve | AtBegin | AtComplete | AtRecord | AtCondition | AtAttempt

  /** What the treatment meets outside: the queue assignment, the token bucket's
      answer, the provider's answers and what they leave behind, the store call
      that fails, the clock. */
  datatype Env = Env(
    observes: bool, reobserves: bool, queued: bool, ownedFields: string, token: bool,
    postures: bool, applies: bool, afterApply: Option<Backing>,
    terminates: bool, afterTerminate: Option<Backing>,
    suspends: bool, afterSuspend: Option<Backing>,
    stop: StoreStop, response: string, clock: nat)

  predicate RefusedIn(w: World, c: StoredCluster) {
    CS.BeginOutcome(w.tables.intents, IntentKey(c), SpecText(c.spec)).ParamMismatch?
  }

  function SetClusters(w: World, m: CS.Clusters): World {
    w.(tables := w.tables.(clusters := m))
  }

  function SetIntents(w: World, m: CS.Intents): World {
    w.(tables := w.tables.(intents := m))
  }

  function WithAttempt(m: CS.Clusters, id: Id, attempt: Option<(nat, nat)>): CS.Clusters {
    if attempt.None? then m else CS.RecordAttempt(m, id, attempt.value.0, attempt.value.1)
  }

  function WithCondition(m: CS.Clusters, c: StoredCluster, condition: Option<DriftCondition>): CS.Clusters {
    if condition == c.condition then m else CS.SetCondition(m, c.id, condition)
  }

  /** The rows after status, condition and backoff are written, up to the store
      call that fails. */
  function StatusRows(m: CS.Clusters, c: StoredCluster, condition: Option<DriftCondition>, final: Option<Backing>,
                      attempt: Option<(nat, nat)>, stop: StoreStop): CS.Clusters
  {
    var m1 := CS.RecordObservation(m, c.id, StateOf(final), GenerationOf(final));
    if condition != c.condition && stop.AtCondition? then m1
    else if stop.AtAttempt? then WithCondition(m1, c, condition)
    else WithAttempt(WithCondition(m1, c, condition), c.id, attempt)
  }

  /** Re-observe, record, set the condition, account for the attempt. */
  function Finish(w: World, c: StoredCluster, now: nat, env: Env, action: Action,
                  condition: Option<DriftCondition>): World
  {
    if !env.reobserves || env.stop.AtRecord? then w else
      var final := Lookup(w.backing, c.id);
      var attempt := AttemptAfter(c, action, StateOf(final), now);
      SetClusters(w, StatusRows(w.tables.clusters, c, condition, final, attempt, env.stop))
  }

  function ApplyRow(w: World, c: StoredCluster, now: nat, env: Env): World {
    if !env.token || env.stop.AtBegin? || RefusedIn(w, c) then w else
      var begun := SetIntents(w, CS.BeginIntent(w.tables.intents, IntentKey(c), SpecText(c.spec), env.clock));
      var postured := begun.(calls := w.calls + [PostureCall]);
      if !env.postures then postured else
        var applied := postured.(backing := Put(w.backing, c.id, env.afterApply),
                                 calls := postured.calls + [ApplyCall(IntentKey(c), c.id, c.spec, c.generation)]);
        if !env.applies || env.stop.AtComplete? then applied else
          var completed := SetIntents(applied,
            CS.CompleteIntent(applied.tables.intents, IntentKey(c), env.response, env.clock));
          Finish(completed, c, now, env, Applied, None)
  }

  /** What the treatment does once it has decided. */
  function Acting(w: World, c: StoredCluster, now: nat, env: Env, decision: Decision): World {
    match decision
    case Apply => ApplyRow(w, c, now, env)
    case Terminate =>
      var done := w.(backing := Put(w.backing, c.id, env.afterTerminate), calls := w.calls + [TerminateCall(c.id)]);
      if env.terminates then Finish(done, c, now, env, TerminatedCluster, None) else done
    case Suspend =>
      var done := w.(backing := Put(w.backing, c.id, env.afterSuspend), calls := w.calls + [SuspendCall(c.id)]);
      if env.suspends then Finish(done, c, now, env, SuspendedCluster, None) else done
    case Alarm(condition) => Finish(w, c, now, env, Drift, Some(condition))
    case Leave => Finish(w, c, now, env, NoOp, None)
  }

  /** `reconcile_one`: `c` is the listed row, which need not be the stored one. */
  function Treat(w: World, c: StoredCluster, now: nat, env: Env): World {
    if BackedOff(c, now) || !env.observes || env.stop.AtCheck? then w else
      var o := Lookup(w.backing, c.id);
      if w.tables.quarantined then
        if env.stop.AtFence? then w
        else SetClusters(w, CS.RecordObservation(w.tables.clusters, c.id, StateOf(o), GenerationOf(o)))
      else if env.stop.AtResolve? then w
      else
        Acting(w, c, now, env, Decide(c, o, env.queued, env.ownedFields))
  }

  /** The answer once the treatment has acted: the action, or None when writing the
      status back fails. */
  function Concluded(c: StoredCluster, now: nat, env: Env, action: Action, condition: Option<DriftCondition>,
                     final: Option<Backing>): Option<Action>
  {
    if !env.reobserves || env.stop.AtRecord? then None
    else if condition != c.condition && env.stop.AtCondition? then None
    else if AttemptAfter(c, action, StateOf(final), now).Some? && env.stop.AtAttempt? then None
    else Some(action)
  }

  function ActingAnswer(w: World, c: StoredCluster, now: nat, env: Env, decision: Decision): Option<Action> {
    match decision
    case Apply =>
      if !env.token then Some(Backoff)
      else if env.stop.AtBegin? || RefusedIn(w, c) || !env.postures || !env.applies || env.stop.AtComplete? then None
      else Concluded(c, now, env, Applied, None, env.afterApply)
    case Terminate =>
      if env.terminates then Concluded(c, now, env, TerminatedCluster, None, env.afterTerminate) else None
    case Suspend =>
      if env.suspends then Concluded(c, now, env, SuspendedCluster, None, env.afterSuspend) else None
    case Alarm(condition) => Concluded(c, now, env, Drift, Some(condition), Lookup(w.backing, c.id))
    case Leave => Concluded(c, now, env, NoOp, None, Lookup(w.backing, c.id))
  }

  /** What `reconcile_one` answers; None is an error return. */
  function Answer(w: World, c: StoredCluster, now: nat, env: Env): Option<Action> {
    if BackedOff(c, now) then Some(Backoff)
    else if !env.observes || env.stop.AtCheck? then None
    else if w.tables.quarantined then if env.stop.AtFence? then None else Some(NoOp)
    else if env.stop.AtResolve? then None
    else ActingAnswer(w, c, now, env, Decide(c, Lookup(w.backing, c.id), env.queued, env.ownedFields))
  }

  /** A full pass over the listed rows, one after the other. */
  function TreatAll(w: World, rows: seq<StoredCluster>, now: nat, envs: Id -> Env): World {
    if rows == [] then w
    else Treat(TreatAll(w, rows[..|rows| - 1], now, envs), rows[|rows| - 1], now, envs(rows[|rows| - 1].id))
  }

  class Reconciler {
    var world: World

    constructor (w: World)
      ensures world == w
    {
      world := w;
    }

    /** Some(action), or None for an error return. */
    method ReconcileOne(c: StoredCluster, now: nat, env: Env) returns (action: Option<Action>)
      modifies this
      ensures world == Treat(old(world), c, now, env)
      ensures action == Answer(old(world), c, now, env)
    {
      if c.desired.WantRunning? && now < c.nextAttemptAt {
        return Some(Backoff);
      }
      if !env.observes {
        return None;
      }
      var observed := Lookup(world.backing, c.id);
      if env.stop.AtCheck? {
        return None;
      }
      if world.tables.quarantined {
        if env.stop.AtFence? {
          return None;
        }
        world := SetClusters(world,
          CS.RecordObservation(world.tables.clusters, c.id, StateOf(observed), GenerationOf(observed)));
        return Some(NoOp);
      }
      if env.stop.AtResolve? {
        return None;
      }
      var act: Action := NoOp;
      var condition: Option<DriftCondition> := None;
      match c.desired {
        case WantRunning =>
          if StateOf(observed) == Some(Degraded) {
            act, condition := Drift, Some(DegradedCondition);
          } else if NeedsApply(StateOf(observed), GenerationOf(observed), c.generation, env.queued) {
            if !env.token {
              return Some(Backoff);
            }
            var key, fp := IntentKey(c), SpecText(c.spec);
            if env.stop.AtBegin? {
              return None;
            }
            if CS.BeginOutcome(world.tables.intents, key, fp).ParamMismatch? {
              return None;
            }
            world := SetIntents(world, CS.BeginIntent(world.tables.intents, key, fp, env.clock));
            world := world.(calls := world.calls + [PostureCall]);
            if !env.postures {
              return None;
            }
            world := world.(backing := Put(world.backing, c.id, env.afterApply),
                            calls := world.calls + [ApplyCall(key, c.id, c.spec, c.generation)]);
            if !env.applies || env.stop.AtComplete? {
              return None;
            }
            world := SetIntents(world, CS.CompleteIntent(world.tables.intents, key, env.response, env.clock));
            act := Applied;
          } else if observed.Some? && observed.value.ownedFields.Some?
            && observed.value.ownedFields.value != env.ownedFields {
            act, condition := Drift, Some(SpecDrift);
          }
        case WantTerminated =>
          if observed.Some? && observed.value.state != Terminated {
            world := world.(backing := Put(world.backing, c.id, env.afterTerminate),
                            calls := world.calls + [TerminateCall(c.id)]);
            if !env.terminates {
              return None;
            }
            act := TerminatedCluster;
          }
        case WantSuspended =>
          if !env.queued && observed.Some? && observed.value.state !in {Suspended, Terminated, Terminating} {
            world := world.(backing := Put(world.backing, c.id, env.afterSuspend),
                            calls := world.calls + [SuspendCall(c.id)]);
            if !env.suspends {
              return None;
            }
            act := SuspendedCluster;
          }
      }
      if !env.reobserves {
        return None;
      }
      var ok := Conclude(c, now, env, act, condition);
      return if ok then Some(act) else None;
    }

    /** Re-observes and writes back status, condition and backoff; false when a
        store call failed on the way. */
    method Conclude(c: StoredCluster, now: nat, env: Env, act: Action, condition: Option<DriftCondition>)
      returns (ok: bool)
      requires env.reobserves
      modifies this
      ensures world == Finish(old(world), c, now, env, act, condition)
      ensures (if ok then Some(act) else None)
        == Concluded(c, now, env, act, condition, Lookup(old(world).backing, c.id))
    {
      var final := Lookup(world.backing, c.id);
      if env.stop.AtRecord? {
        return false;
      }
      world := SetClusters(world,
        CS.RecordObservation(world.tables.clusters, c.id, StateOf(final), GenerationOf(final)));
      if condition != c.condition {
        if env.stop.AtCondition? {
          return false;
        }
        world := SetClusters(world, CS.SetCondition(world.tables.clusters, c.id, condition));
      }
      var attempt := AttemptAfter(c, act, StateOf(final), now);
      if attempt.Some? {
        if env.stop.AtAttempt? {
          return false;
        }
        world := SetClusters(world, CS.RecordAttempt(world.tables.clusters, c.id, attempt.value.0, attempt.value.1));
      }
      return true;
    }

    /** One pass over everything listed; errors on one row do not stop the next. */
    method ReconcileAll(rows: seq<StoredCluster>, now: nat, envs: Id -> Env)
      modifies this
      ensures world == TreatAll(old(world), rows, now, envs)
    {
      for i := 0 to |rows|
        invariant world == TreatAll(old(world), rows[..i], now, envs)
      {
        var _ := ReconcileOne(rows[i], now, envs(rows[i].id));
        assert rows[..i + 1][..i] == rows[..i];
      }
      assert rows[..|rows|] == rows;
    }
  }
}
