/** The pool reconciler: "already applied" is decided by the outbox fingerprint,
    and a process-local set of converged names drives teardown. */
module PoolReconcile {
  import opened Types
  import opened Keys
  import opened PoolFingerprint
  import CS = ClusterStore

  datatype StoredPool = StoredPool(name: string, spec: PoolSpec, generation: nat)

  datatype PoolAction = NoOp | Applied | Deleted

  /** A call that reached the provider; a failed apply may have taken effect. */
  datatype PoolCall = ApplyPool(name: string, fp: Fingerprint, ok: bool) | DeletePool(name: string, ok: bool)

  datatype World = World(intents: CS.Intents, quarantined: bool, converged: set<string>, calls: seq<PoolCall>)

  const Fresh := World(map[], false, {}, [])

  /** The bytes of a fingerprint's JSON text. */
  type Json = Fingerprint -> seq<Byte>

  function PoolIntentKey(json: Json, pool: StoredPool, fp: Fingerprint): string {
    PoolKey(pool.name, pool.generation, Digest(json(fp)))
  }

  /** How the store and the provider answer one treatment of a pool: which calls
      succeed, the allocations as listed, the clocks of begin and complete. */
  datatype Answers = Answers(
    observed: bool, quarantineRead: bool, listed: Option<Allocations>, got: bool, began: bool,
    applied: bool, completed: bool, now: nat, later: nat)

  predicate AlreadyApplied(m: CS.Intents, key: string, fp: Fingerprint) {
    key in m && m[key].status.AppliedIntent? && m[key].paramsFingerprint == fp
  }

  // --- One pool ---

  /** Opening the intent, applying, completing. */
  function Actuate(json: Json, w: World, pool: StoredPool, fp: Fingerprint, a: Answers): (World, Option<PoolAction>) {
    var key := PoolIntentKey(json, pool, fp);
    var w1 := w.(intents := CS.BeginIntent(w.intents, key, fp, a.now));
    var w2 := w1.(calls := w1.calls + [ApplyPool(pool.name, fp, a.applied)]);
    if !a.began then (w, None)
    else if CS.BeginOutcome(w.intents, key, fp).ParamMismatch? then (w, None)
    else if !a.applied || !a.completed then (w2, None)
    else (w2.(intents := CS.CompleteIntent(w2.intents, key, "{}", a.later), converged := w2.converged + {pool.name}),
          Some(Applied))
  }

  function Treat(json: Json, w: World, pool: StoredPool, a: Answers): (World, Option<PoolAction>) {
    if !a.observed || !a.quarantineRead then (w, None)
    else if w.quarantined then (w, Some(NoOp))
    else if a.listed.None? || !a.got then (w, None)
    else
      var fp := DesiredFingerprint(pool.spec, a.listed.value);
      if AlreadyApplied(w.intents, PoolIntentKey(json, pool, fp), fp) then
        (w.(converged := w.converged + {pool.name}), Some(NoOp))
      else Actuate(json, w, pool, fp, a)
  }

  // --- A pass ---

  function TreatAll(json: Json, w: World, pools: seq<StoredPool>, answers: seq<Answers>): World
    requires |pools| == |answers|
  {
    if pools == [] then w
    else
      var n := |pools| - 1;
      Treat(json, TreatAll(json, w, pools[..n], answers[..n]), pools[n], answers[n]).0
  }

  /** Deletes of vanished pools, in order. */
  function Deletes(w: World, names: seq<string>, ok: string -> bool): World {
    if names == [] then w
    else DeleteOne(Deletes(w, names[..|names| - 1], ok), names[|names| - 1], ok)
  }

  function DeleteOne(w: World, name: string, ok: string -> bool): World {
    w.(calls := w.calls + [DeletePool(name, ok(name))],
       converged := if ok(name) then w.converged - {name} else w.converged)
  }

  lemma DeletesMore(w: World, names: seq<string>, name: string, ok: string -> bool)
    ensures Deletes(w, names + [name], ok) == DeleteOne(Deletes(w, names, ok), name, ok)
  {
    assert (names + [name])[..|names|] == names;
  }

  /** `vanished` lists the converged names that are not current, each once. */
  predicate Lists(vanished: seq<string>, names: set<string>) {
    && (forall i | 0 <= i < |vanished| :: vanished[i] in names)
    && (forall x | x in names :: x in vanished)
    && (forall i, j | 0 <= i < j < |vanished| :: vanished[i] != vanished[j])
  }

  function Teardown(w: World, vanished: seq<string>, read: bool, ok: string -> bool): World {
    if read && !w.quarantined then Deletes(w, vanished, ok) else w
  }

  function NamesOf(pools: seq<StoredPool>): set<string> {
    set i | 0 <= i < |pools| :: pools[i].name
  }

  class PoolReconciler {
    var intents: CS.Intents
    var quarantined: bool
    var converged: set<string>
    var calls: seq<PoolCall>

    function Contents(): World
      reads this
    {
      World(intents, quarantined, converged, calls)
    }

    method ReconcileOne(json: Json, pool: StoredPool, a: Answers) returns (action: Option<PoolAction>)
      modifies this
      ensures (Contents(), action) == Treat(json, old(Contents()), pool, a)
    {
      if !a.observed || !a.quarantineRead {
        return None;
      }
      if quarantined {
        return Some(NoOp);
      }
      if a.listed.None? || !a.got {
        return None;
      }
      var fp := DesiredFingerprint(pool.spec, a.listed.value);
      var digest := ComputeDigest(json(fp));
      var key := PoolKey(pool.name, pool.generation, digest);
      if AlreadyApplied(intents, key, fp) {
        converged := converged + {pool.name};
        return Some(NoOp);
      }
      if !a.began {
        return None;
      }
      var outcome := CS.BeginOutcome(intents, key, fp);
      intents := CS.BeginIntent(intents, key, fp, a.now);
      if outcome.ParamMismatch? {
        return None;
      }
      calls := calls + [ApplyPool(pool.name, fp, a.applied)];
      if !a.applied || !a.completed {
        return None;
      }
      intents := CS.CompleteIntent(intents, key, "{}", a.later);
      converged := converged + {pool.name};
      return Some(Applied);
    }

    /** Deletes the converged pools that are no longer listed, one by one. */
    method DeleteVanished(current: set<string>, ok: string -> bool) returns (order: seq<string>)
      modifies this
      ensures Lists(order, old(converged) - current)
      ensures Contents() == Deletes(old(Contents()), order, ok)
    {
      var left := converged - current;
      ghost var all := left;
      order := [];
      while left != {}
        invariant Lists(order, all - left) && left <= all
        invariant Contents() == Deletes(old(Contents()), order, ok)
        decreases left
      {
        var name :| name in left;
        DeletesMore(old(Contents()), order, name, ok);
        ListsMore(order, all - left, name);
        assert all - left + {name} == all - (left - {name});
        order := order + [name];
        left := left - {name};
        calls := calls + [DeletePool(name, ok(name))];
        if ok(name) {
          converged := converged - {name};
        }
      }
    }

    method ReconcileListed(json: Json, pools: seq<StoredPool>, answers: seq<Answers>)
      requires |pools| == |answers|
      modifies this
      ensures Contents() == TreatAll(json, old(Contents()), pools, answers)
    {
      for i := 0 to |pools|
        invariant Contents() == TreatAll(json, old(Contents()), pools[..i], answers[..i])
      {
        assert pools[..i + 1][..i] == pools[..i] && answers[..i + 1][..i] == answers[..i];
        var _ := ReconcileOne(json, pools[i], answers[i]);
      }
      assert pools[..|pools|] == pools && answers[..|answers|] == answers;
    }

    /** A pass: every listed pool, then the vanished ones unless quarantined. */
    method ReconcileAll(json: Json, pools: seq<StoredPool>, answers: seq<Answers>, read: bool, ok: string -> bool)
        returns (order: seq<string>)
      requires |pools| == |answers|
      modifies this
      ensures
        var w := TreatAll(json, old(Contents()), pools, answers);
        Contents() == Teardown(w, order, read, ok)
        && (read && !w.quarantined ==> Lists(order, w.converged - NamesOf(pools)))
    {
      ReconcileListed(json, pools, answers);
      order := [];
      if read && !quarantined {
        order := DeleteVanished(NamesOf(pools), ok);
      }
    }
  }

  lemma ListsMore(order: seq<string>, names: set<string>, name: string)
    requires Lists(order, names) && name !in names
    ensures Lists(order + [name], names + {name})
  {
    var more := order + [name];
    assert more[|order|] == name;
    forall x | x in names ensures x in more {
      var i :| 0 <= i < |order| && order[i] == x;
      assert more[i] == x;
    }
  }
}
