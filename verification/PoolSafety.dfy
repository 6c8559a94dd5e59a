/** What the pool loop guarantees over every run: no-ops are justified, an unchanged
    pool is applied once, and a converged name is kept until its pool is deleted. */
module PoolSafety {
  import opened Types
  import opened Keys
  import opened PoolFingerprint
  import opened PoolReconcile
  import CS = ClusterStore

  /** `TreatPool` and `Sweep` are the parts of a pass; the cluster reconciler uses
      the same outbox, rows are reaped, the process restarts. */
  datatype Event =
    | TreatPool(pool: StoredPool, answers: Answers)
    | Sweep(current: set<string>, vanished: seq<string>, read: bool, ok: string -> bool)
    | Quarantine(on: bool)
    | Reap(appliedBefore: nat)
    | ClusterBegin(id: Id, generation: nat, fp: Fingerprint, now: nat)
    | ClusterComplete(id: Id, generation: nat, response: string, now: nat)
    | Restart

  predicate Enabled(w: World, e: Event) {
    e.Sweep? ==> Lists(e.vanished, w.converged - e.current)
  }

  function Do(json: Json, w: World, e: Event): World {
    if !Enabled(w, e) then w
    else
      match e
      case TreatPool(pool, answers) => Treat(json, w, pool, answers).0
      case Sweep(current, vanished, read, ok) => Teardown(w, vanished, read, ok)
      case Quarantine(on) => w.(quarantined := on)
      case Reap(appliedBefore) => w.(intents := CS.ReapIntents(w.intents, appliedBefore))
      case ClusterBegin(id, g, fp, now) => w.(intents := CS.BeginIntent(w.intents, ClusterKey(id, g), fp, now))
      case ClusterComplete(id, g, response, now) =>
        w.(intents := CS.CompleteIntent(w.intents, ClusterKey(id, g), response, now))
      case Restart => w.(converged := {})
  }

  function Exec(json: Json, es: seq<Event>): World {
    if es == [] then Fresh else Do(json, Exec(json, es[..|es| - 1]), es[|es| - 1])
  }

  // --- A no-op is justified ---

  function KeyFor(json: Json, name: string, g: nat, fp: Fingerprint): string {
    PoolKey(name, g, Digest(json(fp)))
  }

  /** Every Applied row under a pool key belongs to an apply that succeeded. */
  ghost predicate Justified(json: Json, w: World) {
    forall name, g, fp | AlreadyApplied(w.intents, KeyFor(json, name, g, fp), fp) ::
      ApplyPool(name, fp, true) in w.calls
  }

  lemma KeyForInjective(json: Json, name: string, g: nat, fp: Fingerprint, name': string, g': nat, fp': Fingerprint)
    requires KeyFor(json, name, g, fp) == KeyFor(json, name', g', fp')
    ensures name == name' && g == g'
  {
    PoolKeyInjective(name, g, Digest(json(fp)), name', g', Digest(json(fp')));
  }

  lemma DeletesOnlyAppends(w: World, names: seq<string>, ok: string -> bool)
    ensures Deletes(w, names, ok).intents == w.intents && w.calls <= Deletes(w, names, ok).calls
    decreases |names|
  {
    if names != [] {
      DeletesOnlyAppends(w, names[..|names| - 1], ok);
    }
  }

  lemma ActuateJustified(json: Json, w: World, pool: StoredPool, fp: Fingerprint, a: Answers)
    requires Justified(json, w)
    ensures Justified(json, Actuate(json, w, pool, fp, a).0)
  {
    var w' := Actuate(json, w, pool, fp, a).0;
    var key := PoolIntentKey(json, pool, fp);
    forall name, g, fp' | AlreadyApplied(w'.intents, KeyFor(json, name, g, fp'), fp')
      ensures ApplyPool(name, fp', true) in w'.calls
    {
      if KeyFor(json, name, g, fp') == key {
        KeyForInjective(json, name, g, fp', pool.name, pool.generation, fp);
      }
      if AlreadyApplied(w.intents, KeyFor(json, name, g, fp'), fp') {
        assert ApplyPool(name, fp', true) in w.calls;
      }
    }
  }

  lemma ClusterJustified(json: Json, w: World, m: CS.Intents, id: Id, g: nat)
    requires Justified(json, w)
    requires forall k | k in m && k != ClusterKey(id, g) :: k in w.intents && m[k] == w.intents[k]
    ensures Justified(json, w.(intents := m))
  {
    forall name, g', fp | AlreadyApplied(m, KeyFor(json, name, g', fp), fp)
      ensures ApplyPool(name, fp, true) in w.calls
    {
      ClusterPoolKeysDisjoint(id, g, name, g', Digest(json(fp)));
      assert AlreadyApplied(w.intents, KeyFor(json, name, g', fp), fp);
    }
  }

  lemma StepJustified(json: Json, w: World, e: Event)
    requires Justified(json, w)
    ensures Justified(json, Do(json, w, e))
  {
    match e
    case TreatPool(pool, a) =>
      if a.listed.Some? {
        ActuateJustified(json, w, pool, DesiredFingerprint(pool.spec, a.listed.value), a);
      }
    case Sweep(current, vanished, read, ok) => DeletesOnlyAppends(w, vanished, ok);
    case ClusterBegin(id, g, fp, now) =>
      ClusterJustified(json, w, CS.BeginIntent(w.intents, ClusterKey(id, g), fp, now), id, g);
    case ClusterComplete(id, g, response, now) =>
      ClusterJustified(json, w, CS.CompleteIntent(w.intents, ClusterKey(id, g), response, now), id, g);
    case Reap(appliedBefore) =>
      assert forall k | k in CS.ReapIntents(w.intents, appliedBefore) ::
        CS.ReapIntents(w.intents, appliedBefore)[k] == w.intents[k];
    case _ =>
  }

  lemma {:induction false} RunJustified(json: Json, es: seq<Event>)
    ensures Justified(json, Exec(json, es))
  {
    if es != [] {
      RunJustified(json, es[..|es| - 1]);
      StepJustified(json, Exec(json, es[..|es| - 1]), es[|es| - 1]);
    }
  }

  /** In every run, a pass that finds nothing to do while not quarantined is about
      a fingerprint the provider once accepted for that pool. */
  lemma {:induction false} NoOpMeansApplied(json: Json, es: seq<Event>, pool: StoredPool, a: Answers)
    ensures
      var w := Exec(json, es);
      !w.quarantined && Treat(json, w, pool, a).1 == Some(NoOp) ==>
        && a.listed.Some?
        && ApplyPool(pool.name, DesiredFingerprint(pool.spec, a.listed.value), true) in w.calls
  {
    RunJustified(json, es);
    var w := Exec(json, es);
    if !w.quarantined && Treat(json, w, pool, a).1 == Some(NoOp) {
      var fp := DesiredFingerprint(pool.spec, a.listed.value);
      assert AlreadyApplied(w.intents, KeyFor(json, pool.name, pool.generation, fp), fp);
    }
  }

  // --- Applied once ---

  /** Other pools and clusters never disturb an Applied row. */
  lemma StepKeepsApplied(json: Json, w: World, e: Event, pool: StoredPool, fp: Fingerprint)
    requires !e.Reap? && AlreadyApplied(w.intents, PoolIntentKey(json, pool, fp), fp)
    ensures AlreadyApplied(Do(json, w, e).intents, PoolIntentKey(json, pool, fp), fp)
  {
    match e
    case Sweep(current, vanished, read, ok) => DeletesOnlyAppends(w, vanished, ok);
    case _ =>
  }

  lemma {:induction false} RunKeepsApplied(json: Json, es: seq<Event>, i: nat, pool: StoredPool, fp: Fingerprint)
    requires i <= |es| && forall k | i <= k < |es| :: !es[k].Reap?
    ensures AlreadyApplied(Exec(json, es[..i]).intents, PoolIntentKey(json, pool, fp), fp)
      ==> AlreadyApplied(Exec(json, es).intents, PoolIntentKey(json, pool, fp), fp)
    decreases |es|
  {
    if i < |es| {
      var rest := es[..|es| - 1];
      assert rest[..i] == es[..i];
      RunKeepsApplied(json, rest, i, pool, fp);
      if AlreadyApplied(Exec(json, rest).intents, PoolIntentKey(json, pool, fp), fp) {
        StepKeepsApplied(json, Exec(json, rest), es[|es| - 1], pool, fp);
      }
    } else {
      assert es[..i] == es;
    }
  }

  /** Between reaps a pool in an unchanged desired state gets at most one apply
      that completes, however its allocations are listed. */
  lemma {:induction false} AppliedAtMostOnce(json: Json, es: seq<Event>, i: nat, pool: StoredPool, a: Answers,
                                             b: Answers)
    requires i < |es| && es[i] == TreatPool(pool, a)
    requires forall k | i < k < |es| :: !es[k].Reap?
    requires a.listed.Some? && b.listed.Some?
    requires UniqueProjects(a.listed.value) && UniqueProjects(b.listed.value)
    requires SameElements(a.listed.value, b.listed.value)
    ensures Treat(json, Exec(json, es[..i]), pool, a).1 == Some(Applied) ==>
      && Treat(json, Exec(json, es), pool, b).1 != Some(Applied)
      && Treat(json, Exec(json, es), pool, b).0.calls == Exec(json, es).calls
  {
    var fp := DesiredFingerprint(pool.spec, a.listed.value);
    FingerprintCanonical(pool.spec, a.listed.value, pool.spec, b.listed.value);
    assert es[..i + 1][..i] == es[..i];
    assert Treat(json, Exec(json, es[..i]), pool, a).1 == Some(Applied) ==>
      AlreadyApplied(Exec(json, es[..i + 1]).intents, PoolIntentKey(json, pool, fp), fp);
    RunKeepsApplied(json, es, i + 1, pool, fp);
  }

  // --- Leaving the converged set ---

  /** A call made since. */
  predicate Since(before: seq<PoolCall>, after: seq<PoolCall>, c: PoolCall) {
    exists i | |before| <= i < |after| :: after[i] == c
  }

  lemma {:induction false} DeletedWhenGone(w: World, names: seq<string>, ok: string -> bool, name: string)
    requires name in w.converged && name !in Deletes(w, names, ok).converged
    ensures name in names && ok(name)
    ensures Since(w.calls, Deletes(w, names, ok).calls, DeletePool(name, true))
    decreases |names|
  {
    var n := |names| - 1;
    var before := Deletes(w, names[..n], ok);
    DeletesOnlyAppends(w, names[..n], ok);
    var calls := Deletes(w, names, ok).calls;
    if name !in before.converged {
      DeletedWhenGone(w, names[..n], ok, name);
      var i :| |w.calls| <= i < |before.calls| && before.calls[i] == DeletePool(name, true);
      assert calls[i] == before.calls[i];
    } else {
      assert calls[|before.calls|] == DeletePool(name, true);
    }
  }

  /** While the process lives, a name leaves the converged set only in a sweep that
      no longer lists the pool and in which its delete succeeded; a failed delete
      keeps the name, so it is tried again. */
  lemma ConvergedLeavesAfterDelete(json: Json, w: World, e: Event, name: string)
    requires name in w.converged && name !in Do(json, w, e).converged && !e.Restart?
    ensures e.Sweep? && name !in e.current && e.ok(name)
    ensures Since(w.calls, Do(json, w, e).calls, DeletePool(name, true))
  {
    if e.Sweep? {
      DeletedWhenGone(w, e.vanished, e.ok, name);
      var i :| 0 <= i < |e.vanished| && e.vanished[i] == name;
    }
  }

  lemma {:induction false} EveryNameTried(w: World, names: seq<string>, ok: string -> bool, name: string)
    requires name in names
    ensures Since(w.calls, Deletes(w, names, ok).calls, DeletePool(name, ok(name)))
    ensures ok(name) ==> name !in Deletes(w, names, ok).converged
    decreases |names|
  {
    var n := |names| - 1;
    var before, calls := Deletes(w, names[..n], ok), Deletes(w, names, ok).calls;
    DeletesOnlyAppends(w, names[..n], ok);
    if name in names[..n] {
      EveryNameTried(w, names[..n], ok, name);
      var i :| |w.calls| <= i < |before.calls| && before.calls[i] == DeletePool(name, ok(name));
      assert calls[i] == before.calls[i];
    } else {
      assert names[n] == name;
      assert calls[|before.calls|] == DeletePool(name, ok(name));
    }
  }

  lemma {:induction false} DeletesKeep(w: World, names: seq<string>, ok: string -> bool, name: string)
    requires name in w.converged && (name !in names || !ok(name))
    ensures name in Deletes(w, names, ok).converged
    decreases |names|
  {
    if names != [] {
      DeletesKeep(w, names[..|names| - 1], ok, name);
    }
  }

  /** A sweep outside quarantine asks for the delete of every converged pool that
      is no longer listed, and forgets exactly those whose delete succeeded. */
  lemma SweepTriesEveryVanished(json: Json, w: World, e: Event, name: string)
    requires e.Sweep? && Enabled(w, e) && e.read && !w.quarantined && name in w.converged
    ensures name !in e.current ==> Since(w.calls, Do(json, w, e).calls, DeletePool(name, e.ok(name)))
    ensures name in Do(json, w, e).converged <==> name in e.current || !e.ok(name)
  {
    if name !in e.current {
      assert name in w.converged - e.current;
      EveryNameTried(w, e.vanished, e.ok, name);
      if !e.ok(name) {
        DeletesKeep(w, e.vanished, e.ok, name);
      }
    } else {
      assert forall i | 0 <= i < |e.vanished| :: e.vanished[i] in w.converged - e.current;
      DeletesKeep(w, e.vanished, e.ok, name);
    }
  }

  // --- One treatment in which every call succeeds ---

  predicate AllAnswer(a: Answers) {
    a.observed && a.quarantineRead && a.listed.Some? && a.got && a.began && a.applied && a.completed
  }

  /** Outside quarantine, by what is on file under the key of the desired state: the
      same state Applied is a no-op, another state is an error, and otherwise the
      state is applied and its row completed; no other row changes. */
  lemma PoolTreatmentTells(json: Json, w: World, pool: StoredPool, a: Answers)
    requires AllAnswer(a) && !w.quarantined
    ensures
      var fp := DesiredFingerprint(pool.spec, a.listed.value);
      var key := PoolKey(pool.name, pool.generation, Digest(json(fp)));
      var (w', answer) := Treat(json, w, pool, a);
      var filed := key in w.intents;
      && (answer == Some(NoOp)
          <==> filed && w.intents[key].paramsFingerprint == fp && w.intents[key].status == AppliedIntent)
      && (answer == None <==> filed && w.intents[key].paramsFingerprint != fp)
      && (answer != Some(Applied) ==> w'.calls == w.calls && w'.intents == w.intents)
      && (answer == Some(Applied) ==>
            && w'.calls == w.calls + [ApplyPool(pool.name, fp, true)]
            && key in w'.intents && w'.intents - {key} == w.intents - {key}
            && w'.intents[key].paramsFingerprint == fp && w'.intents[key].status == AppliedIntent
            && w'.intents[key].completedAt == Some(a.later))
      && answer != Some(Deleted)
  {}

  // --- Entering the converged set ---

  /** Outside quarantine a treatment that answers, applied or nothing to do, marks its
      pool; one that fails, and any under quarantine, marks nobody. */
  lemma AnswerMarks(json: Json, w: World, pool: StoredPool, a: Answers)
    ensures var r := Treat(json, w, pool, a);
      && r.0.quarantined == w.quarantined
      && r.0.converged == w.converged + if r.1.Some? && !w.quarantined then {pool.name} else {}
  {}

  /** A sweep that reaches the pool: outside quarantine, and not listing it. */
  predicate Misses(w: World, e: Event, name: string) {
    e.Sweep? && Enabled(w, e) && e.read && !w.quarantined && name !in e.current
  }

  lemma MarkStays(json: Json, w: World, e: Event, name: string)
    requires name in w.converged && !e.Restart? && !Misses(w, e, name)
    ensures name in Do(json, w, e).converged
  {
    if name !in Do(json, w, e).converged {
      ConvergedLeavesAfterDelete(json, w, e, name);
    }
  }

  lemma ExecNext(json: Json, es: seq<Event>, k: nat)
    requires k < |es|
    ensures Exec(json, es[..k + 1]) == Do(json, Exec(json, es[..k]), es[k])
  {
    assert es[..k + 1][..k] == es[..k];
  }

  lemma {:induction false} MarkedUntil(json: Json, es: seq<Event>, i: nat, k: nat, name: string)
    requires i <= k <= |es| && name in Exec(json, es[..i]).converged
    requires forall n | i <= n < k :: !es[n].Restart? && !Misses(Exec(json, es[..n]), es[n], name)
    ensures name in Exec(json, es[..k]).converged
    decreases k
  {
    if i < k {
      MarkedUntil(json, es, i, k - 1, name);
      ExecNext(json, es, k - 1);
      MarkStays(json, Exec(json, es[..k - 1]), es[k - 1], name);
    }
  }

  /** Over every run: once a treatment has answered for a pool outside quarantine, the
      next sweep that misses it asks the provider to delete it, unless the
      process restarts in between. */
  lemma {:induction false} AnsweredThenDeleted(json: Json, es: seq<Event>, i: nat, pool: StoredPool, a: Answers, k: nat)
    requires i < k < |es| && es[i] == TreatPool(pool, a)
    requires !Exec(json, es[..i]).quarantined && Treat(json, Exec(json, es[..i]), pool, a).1.Some?
    requires forall n | i < n < k :: !es[n].Restart? && !Misses(Exec(json, es[..n]), es[n], pool.name)
    requires Misses(Exec(json, es[..k]), es[k], pool.name)
    ensures Since(Exec(json, es[..k]).calls, Exec(json, es[..k + 1]).calls, DeletePool(pool.name, es[k].ok(pool.name)))
  {
    ExecNext(json, es, i);
    AnswerMarks(json, Exec(json, es[..i]), pool, a);
    MarkedUntil(json, es, i + 1, k, pool.name);
    ExecNext(json, es, k);
    SweepTriesEveryVanished(json, Exec(json, es[..k]), es[k], pool.name);
  }

  function Treatments(pools: seq<StoredPool>, answers: seq<Answers>): seq<Event>
    requires |pools| == |answers|
  {
    seq(|pools|, i requires 0 <= i < |pools| => TreatPool(pools[i], answers[i]))
  }

  /** The pools of a pass that got an answer. */
  ghost function Answered(json: Json, w: World, pools: seq<StoredPool>, answers: seq<Answers>): set<string>
    requires |pools| == |answers|
  {
    if pools == [] then {}
    else
      var n := |pools| - 1;
      var w1 := TreatAll(json, w, pools[..n], answers[..n]);
      Answered(json, w, pools[..n], answers[..n])
      + if Treat(json, w1, pools[n], answers[n]).1.Some? then {pools[n].name} else {}
  }

  lemma {:induction false} PassMarks(json: Json, w: World, pools: seq<StoredPool>, answers: seq<Answers>)
    requires |pools| == |answers| && !w.quarantined
    ensures var w' := TreatAll(json, w, pools, answers);
      !w'.quarantined && w'.converged == w.converged + Answered(json, w, pools, answers)
    decreases |pools|
  {
    if pools != [] {
      var n := |pools| - 1;
      PassMarks(json, w, pools[..n], answers[..n]);
      AnswerMarks(json, TreatAll(json, w, pools[..n], answers[..n]), pools[n], answers[n]);
    }
  }

  lemma {:induction false} TreatmentsRun(json: Json, es: seq<Event>, pools: seq<StoredPool>, answers: seq<Answers>)
    requires |pools| == |answers|
    ensures Exec(json, es + Treatments(pools, answers)) == TreatAll(json, Exec(json, es), pools, answers)
    decreases |pools|
  {
    var all := es + Treatments(pools, answers);
    if pools == [] {
      assert all == es;
    } else {
      var n := |pools| - 1;
      TreatmentsRun(json, es, pools[..n], answers[..n]);
      assert all[..|all| - 1] == es + Treatments(pools[..n], answers[..n]);
    }
  }

  /** A restart forgets the marks, and one pass outside quarantine brings back those
      of all pools it gets an answer for. */
  lemma RestartThenPass(json: Json, es: seq<Event>, pools: seq<StoredPool>, answers: seq<Answers>)
    requires |pools| == |answers| && !Exec(json, es).quarantined
    ensures Exec(json, es + [Restart] + Treatments(pools, answers)).converged
      == Answered(json, Exec(json, es + [Restart]), pools, answers)
  {
    assert (es + [Restart])[..|es|] == es;
    TreatmentsRun(json, es + [Restart], pools, answers);
    PassMarks(json, Exec(json, es + [Restart]), pools, answers);
  }

  // --- Quarantine ---

  /** While quarantined the pool loop calls nobody and marks nobody, over every run. */
  lemma {:induction false} QuarantinedPoolsHold(json: Json, es: seq<Event>, i: nat)
    requires i <= |es| && Exec(json, es[..i]).quarantined
    requires forall k | i <= k < |es| :: es[k] != Quarantine(false)
    ensures Exec(json, es).quarantined && Exec(json, es).calls == Exec(json, es[..i]).calls
    ensures Exec(json, es).converged <= Exec(json, es[..i]).converged
    decreases |es|
  {
    if i < |es| {
      var rest := es[..|es| - 1];
      assert rest[..i] == es[..i];
      assert forall k | i <= k < |rest| :: rest[k] == es[k];
      QuarantinedPoolsHold(json, rest, i);
    } else {
      assert es[..i] == es;
    }
  }
}
