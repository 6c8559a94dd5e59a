/** What one treatment of a row does and answers, read off the provider's copy and
    the row field by field: the calls it makes, the answer it gives, the status,
    condition and backoff it leaves, and what it files in the outbox. */
module Treatments {
  import opened Types
  import opened Reconcile
  import opened Outbox
  import opened Passes
  import BackoffBounds
  import Convergence
  import CS = ClusterStore

  // --- What is due ---

  /** Inside its backoff window. */
  predicate Gated(c: StoredCluster, now: nat) {
    c.desired == WantRunning && now < c.nextAttemptAt
  }

  /** The copy carries an older generation than the row; no stamp counts as 0. */
  predicate Behind(b: Backing, c: StoredCluster) {
    if b.generation.Some? then b.generation.value < c.generation else 0 < c.generation
  }

  /** Wanted up, and nothing there, or it is going or gone, or held down by nobody's
      queue, or it is of an older generation. */
  predicate ApplyDue(w: World, c: StoredCluster, queued: bool) {
    && c.desired == WantRunning
    && (|| c.id !in w.backing
        || w.backing[c.id].state in {Terminated, Terminating}
        || (w.backing[c.id].state == Suspended && !queued)
        || (w.backing[c.id].state in {Pending, Provisioning, Running, Updating, Suspending}
            && Behind(w.backing[c.id], c)))
  }

  predicate TerminateDue(w: World, c: StoredCluster) {
    c.desired == WantTerminated && c.id in w.backing && w.backing[c.id].state != Terminated
  }

  predicate SuspendDue(w: World, c: StoredCluster, queued: bool) {
    && c.desired == WantSuspended && !queued && c.id in w.backing
    && w.backing[c.id].state in {Pending, Provisioning, Running, Degraded, Updating, Suspending}
  }

  predicate DegradedSeen(w: World, c: StoredCluster) {
    c.desired == WantRunning && c.id in w.backing && w.backing[c.id].state == Degraded
  }

  /** Wanted up, there as wanted, and its live fields are known and not the row's. */
  predicate DriftSeen(w: World, c: StoredCluster, queued: bool, ownedFields: string) {
    && c.desired == WantRunning && c.id in w.backing && w.backing[c.id].state != Degraded
    && !ApplyDue(w, c, queued)
    && w.backing[c.id].ownedFields.Some? && w.backing[c.id].ownedFields.value != ownedFields
  }

  predicate AlarmSeen(w: World, c: StoredCluster, env: Env) {
    DegradedSeen(w, c) || DriftSeen(w, c, env.queued, env.ownedFields)
  }

  /** The treatment gets as far as deciding. */
  predicate Engages(w: World, c: StoredCluster, now: nat, env: Env) {
    && !Gated(c, now) && env.observes && !w.tables.quarantined
    && !env.stop.AtCheck? && !env.stop.AtResolve?
  }

  lemma DecideIs(w: World, c: StoredCluster, queued: bool, ownedFields: string)
    ensures var decision := Decide(c, Lookup(w.backing, c.id), queued, ownedFields);
      && (decision.Apply? <==> ApplyDue(w, c, queued))
      && (decision.Terminate? <==> TerminateDue(w, c))
      && (decision.Suspend? <==> SuspendDue(w, c, queued))
      && (decision == Alarm(DegradedCondition) <==> DegradedSeen(w, c))
      && (decision == Alarm(SpecDrift) <==> DriftSeen(w, c, queued, ownedFields))
  {
    if c.id in w.backing {
      NineStates(w.backing[c.id].state);
    }
  }

  lemma NineStates(s: ClusterState)
    ensures s in {Pending, Provisioning, Running, Degraded, Updating, Suspending, Suspended, Terminating, Terminated}
  {
    match s
    case Pending =>
    case Provisioning =>
    case Running =>
    case Degraded =>
    case Updating =>
    case Suspending =>
    case Suspended =>
    case Terminating =>
    case Terminated =>
  }

  // --- The calls ---

  /** The calls of an engaged treatment, from what is due and how far it gets. */
  function DueCalls(w: World, c: StoredCluster, env: Env): seq<Call> {
    if ApplyDue(w, c, env.queued) then
      if !env.token || env.stop.AtBegin? || RefusedIn(w, c) then []
      else if !env.postures then [PostureCall]
      else [PostureCall, ApplyCall(IntentKey(c), c.id, c.spec, c.generation)]
    else if TerminateDue(w, c) then [TerminateCall(c.id)]
    else if SuspendDue(w, c, env.queued) then [SuspendCall(c.id)]
    else []
  }

  lemma CallsAre(w: World, c: StoredCluster, now: nat, env: Env)
    ensures Treat(w, c, now, env).calls == w.calls + if Engages(w, c, now, env) then DueCalls(w, c, env) else []
  {
    DecideIs(w, c, env.queued, env.ownedFields);
    var decision := Decide(c, Lookup(w.backing, c.id), env.queued, env.ownedFields);
    if Engages(w, c, now, env) {
      ActingCalls(w, c, now, env, decision);
    } else {
      assert w.calls + [] == w.calls;
    }
  }

  lemma ActingCalls(w: World, c: StoredCluster, now: nat, env: Env, decision: Decision)
    requires decision == Decide(c, Lookup(w.backing, c.id), env.queued, env.ownedFields)
    ensures Acting(w, c, now, env, decision).calls == w.calls + DueCalls(w, c, env)
  {
    DecideIs(w, c, env.queued, env.ownedFields);
    assert w.calls + [] == w.calls;
    assert w.calls + [PostureCall] + [ApplyCall(IntentKey(c), c.id, c.spec, c.generation)]
      == w.calls + [PostureCall, ApplyCall(IntentKey(c), c.id, c.spec, c.generation)];
  }

  // --- The answer ---

  /** The mutating calls made between two worlds. */
  predicate Made(w: World, w': World, calls: seq<Call>) {
    w'.calls == w.calls + calls
  }

  lemma MadeOnce(w: World, w': World, a: seq<Call>, b: seq<Call>)
    requires Made(w, w', a)
    ensures Made(w, w', b) <==> a == b
  {
    assert (w.calls + a)[|w.calls|..] == a && (w.calls + b)[|w.calls|..] == b;
  }

  /** The answer and what is due go together. */
  lemma AnswerIsDue(w: World, c: StoredCluster, now: nat, env: Env)
    ensures var a := Answer(w, c, now, env);
      && (a == Some(Backoff)
          <==> Gated(c, now) || (Engages(w, c, now, env) && ApplyDue(w, c, env.queued) && !env.token))
      && (a.Some? && !a.value.Backoff? ==>
            && (a.value.Applied? <==> Engages(w, c, now, env) && ApplyDue(w, c, env.queued))
            && (a.value.TerminatedCluster? <==> Engages(w, c, now, env) && TerminateDue(w, c))
            && (a.value.SuspendedCluster? <==> Engages(w, c, now, env) && SuspendDue(w, c, env.queued))
            && (a.value.Drift? <==> Engages(w, c, now, env) && AlarmSeen(w, c, env))
            && (a.value.Applied? ==> !env.stop.AtBegin? && !RefusedIn(w, c) && env.postures && env.token))
  {
    DecideIs(w, c, env.queued, env.ownedFields);
  }

  /** Each answer is given exactly for its own event: backoff when gated or without
      a token, drift for a degraded or edited cluster, and the others for the
      calls they name. */
  lemma AnswersTell(w: World, c: StoredCluster, now: nat, env: Env)
    ensures var a, w' := Answer(w, c, now, env), Treat(w, c, now, env);
      && (a == Some(Backoff)
          <==> Gated(c, now) || (Engages(w, c, now, env) && ApplyDue(w, c, env.queued) && !env.token))
      && (a.Some? ==>
            && (a.value.Drift? <==> Engages(w, c, now, env) && AlarmSeen(w, c, env))
            && (a.value.Applied? <==>
                  Made(w, w', [PostureCall, ApplyCall(IntentKey(c), c.id, c.spec, c.generation)]))
            && (a.value.TerminatedCluster? <==> Made(w, w', [TerminateCall(c.id)]))
            && (a.value.SuspendedCluster? <==> Made(w, w', [SuspendCall(c.id)])))
  {
    var w' := Treat(w, c, now, env);
    var calls := if Engages(w, c, now, env) then DueCalls(w, c, env) else [];
    CallsAre(w, c, now, env);
    AnswerIsDue(w, c, now, env);
    MadeOnce(w, w', calls, [PostureCall, ApplyCall(IntentKey(c), c.id, c.spec, c.generation)]);
    MadeOnce(w, w', calls, [TerminateCall(c.id)]);
    MadeOnce(w, w', calls, [SuspendCall(c.id)]);
  }

  /** Nothing goes wrong outside. */
  predicate AllSucceeds(env: Env) {
    && env.observes && env.reobserves && env.postures && env.applies && env.terminates && env.suspends
    && env.stop == NoStop
  }

  /** Without a failure outside, the only error is the outbox's refusal of an apply. */
  lemma AnswersUnlessRefused(w: World, c: StoredCluster, now: nat, env: Env)
    requires AllSucceeds(env)
    ensures Answer(w, c, now, env).None?
      <==> Engages(w, c, now, env) && ApplyDue(w, c, env.queued) && env.token && RefusedIn(w, c)
  {
    DecideIs(w, c, env.queued, env.ownedFields);
  }

  // --- The row ---

  /** Alarms are raised by what was seen at the start of the treatment. */
  function ConditionSeen(w: World, c: StoredCluster, env: Env): Option<DriftCondition> {
    if DegradedSeen(w, c) then Some(DegradedCondition)
    else if DriftSeen(w, c, env.queued, env.ownedFields) then Some(SpecDrift)
    else None
  }

  /** Nothing there, or on its way down. */
  predicate Down(w: World, id: Id) {
    id in w.backing ==> w.backing[id].state in {Terminated, Terminating}
  }

  /** The backoff columns after a treatment that answered: an apply that left the
      cluster down counts and pushes the next attempt out, other progress of a
      wanted cluster clears them, and nothing else touches them. */
  predicate BackoffAfter(c: StoredCluster, failures: nat, next: nat, action: Action, down: bool, now: nat) {
    if action == Applied && down then
      && failures == (if c.failureCount < U32_MAX then c.failureCount + 1 else U32_MAX)
      && next == Min(now + Min(300, 5 * Pow2(failures - 1)), U64_MAX)
    else if action == Applied || (action == NoOp && c.desired == WantRunning) then
      failures == 0 && next == 0
    else failures == c.failureCount && next == c.nextAttemptAt
  }

  /** The observed columns tell what the provider has: its state, and the newest
      generation it ever showed. */
  predicate TellsObserved(c: StoredCluster, c': StoredCluster, w: World) {
    if c.id in w.backing then
      && c'.observedState == Some(w.backing[c.id].state)
      && c'.observedGeneration == (if w.backing[c.id].generation.None? then c.observedGeneration
                                   else CS.Max(c.observedGeneration, w.backing[c.id].generation.value))
    else c'.observedState == None && c'.observedGeneration == c.observedGeneration
  }

  /** Id, spec, generation, desired state and both time stamps are not the treatment's to change. */
  predicate KeepsRest(c: StoredCluster, c': StoredCluster) {
    && c'.id == c.id && c'.spec == c.spec && c'.generation == c.generation && c'.desired == c.desired
    && c'.createdAt == c.createdAt && c'.terminatedAt == c.terminatedAt
  }

  lemma AttemptIs(c: StoredCluster, action: Action, w: World, now: nat)
    ensures
      var attempt := AttemptAfter(c, action, StateOf(Lookup(w.backing, c.id)), now);
      var after := if attempt.Some? then attempt.value else (c.failureCount, c.nextAttemptAt);
      BackoffAfter(c, after.0, after.1, action, Down(w, c.id), now)
  {
    BackoffBounds.BackoffClosedForm(if c.failureCount < U32_MAX then c.failureCount + 1 else U32_MAX);
  }

  /** What the status writes leave when none of them fails. */
  lemma StatusRowIs(m: CS.Clusters, c: StoredCluster, condition: Option<DriftCondition>, final: Option<Backing>,
                    attempt: Option<(nat, nat)>, stop: StoreStop)
    requires c.id in m && m[c.id] == c
    requires !(condition != c.condition && stop.AtCondition?) && !(attempt.Some? && stop.AtAttempt?)
    ensures
      var after := if attempt.Some? then attempt.value else (c.failureCount, c.nextAttemptAt);
      StatusRows(m, c, condition, final, attempt, stop)
      == m[c.id := c.(observedState := StateOf(final),
                      observedGeneration := CS.Max(c.observedGeneration, GenerationOf(final)),
                      condition := condition, failureCount := after.0, nextAttemptAt := after.1)]
  {}

  /** The row and the rest of the table after a treatment that answered. */
  predicate Settled(w: World, w': World, c: StoredCluster, action: Action, condition: Option<DriftCondition>,
                    now: nat)
  {
    && c.id in w'.tables.clusters && w'.tables.clusters - {c.id} == w.tables.clusters - {c.id}
    && var c' := w'.tables.clusters[c.id];
       && TellsObserved(c, c', w') && c'.condition == condition && KeepsRest(c, c')
       && BackoffAfter(c, c'.failureCount, c'.nextAttemptAt, action, Down(w', c.id), now)
  }

  lemma WrittenRow(c: StoredCluster, w: World, condition: Option<DriftCondition>, failures: nat, next: nat)
    ensures
      var o := Lookup(w.backing, c.id);
      var c' := c.(observedState := StateOf(o), observedGeneration := CS.Max(c.observedGeneration, GenerationOf(o)),
                   condition := condition, failureCount := failures, nextAttemptAt := next);
      TellsObserved(c, c', w) && KeepsRest(c, c')
  {}

  lemma StatusIs(w: World, c: StoredCluster, now: nat, env: Env, action: Action, condition: Option<DriftCondition>)
    requires c.id in w.tables.clusters && w.tables.clusters[c.id] == c
    requires Concluded(c, now, env, action, condition, Lookup(w.backing, c.id)).Some?
    ensures Settled(w, Finish(w, c, now, env, action, condition), c, action, condition, now)
  {
    var final := Lookup(w.backing, c.id);
    var attempt := AttemptAfter(c, action, StateOf(final), now);
    var after := if attempt.Some? then attempt.value else (c.failureCount, c.nextAttemptAt);
    AttemptIs(c, action, w, now);
    WrittenRow(c, w, condition, after.0, after.1);
    StatusRowIs(w.tables.clusters, c, condition, final, attempt, env.stop);
    Convergence.FinishKeeps(w, c, now, env, action, condition);
  }

  /** A treatment of the stored row that answers, outside backoff and quarantine,
      leaves the row telling the truth: the provider's state at the end and its
      newest generation; Degraded or SpecDrift exactly when that was seen, and no
      condition otherwise; backoff counted, cleared or left as its action asks;
      and nothing else of any row. */
  lemma CompletedTreatmentIsTruthful(w: World, c: StoredCluster, now: nat, env: Env)
    requires c.id in w.tables.clusters && w.tables.clusters[c.id] == c && !w.tables.quarantined
    requires Answer(w, c, now, env).Some? && Answer(w, c, now, env) != Some(Backoff)
    ensures Settled(w, Treat(w, c, now, env), c, Answer(w, c, now, env).value, ConditionSeen(w, c, env), now)
  {
    DecideIs(w, c, env.queued, env.ownedFields);
    var none: Option<DriftCondition> := None;
    match Decide(c, Lookup(w.backing, c.id), env.queued, env.ownedFields)
    case Apply => StatusIs(Convergence.Completed(w, c, env), c, now, env, Applied, none);
    case Terminate =>
      StatusIs(w.(backing := Put(w.backing, c.id, env.afterTerminate), calls := w.calls + [TerminateCall(c.id)]),
               c, now, env, TerminatedCluster, none);
    case Suspend =>
      StatusIs(w.(backing := Put(w.backing, c.id, env.afterSuspend), calls := w.calls + [SuspendCall(c.id)]),
               c, now, env, SuspendedCluster, none);
    case Alarm(condition) => StatusIs(w, c, now, env, Drift, Some(condition));
    case Leave => StatusIs(w, c, now, env, NoOp, none);
  }

  /** Under quarantine the row is told what the provider has, and that is all. */
  lemma QuarantinedOnlyObserves(w: World, c: StoredCluster, now: nat, env: Env)
    requires c.id in w.tables.clusters && w.tables.clusters[c.id] == c && w.tables.quarantined
    ensures var w' := Treat(w, c, now, env);
      && w'.calls == w.calls && w'.backing == w.backing && w'.tables.intents == w.tables.intents
      && c.id in w'.tables.clusters && w'.tables.clusters - {c.id} == w.tables.clusters - {c.id}
      && var c' := w'.tables.clusters[c.id];
         && KeepsRest(c, c') && c'.condition == c.condition
         && c'.failureCount == c.failureCount && c'.nextAttemptAt == c.nextAttemptAt
         && (Answer(w, c, now, env) == Some(NoOp) ==> TellsObserved(c, c', w'))
  {}

  // --- The outbox ---

  /** A treatment touches the outbox only under its own key: opened when it goes
      ahead with an apply, with the row's spec and the clock, and completed with
      the provider's response exactly when it gets that far. */
  lemma OutboxTells(w: World, c: StoredCluster, now: nat, env: Env)
    ensures
      var m, m', key := w.tables.intents, Treat(w, c, now, env).tables.intents, IntentKey(c);
      var opens := Engages(w, c, now, env) && ApplyDue(w, c, env.queued) && env.token
                   && !env.stop.AtBegin? && !RefusedIn(w, c);
      && (!opens ==> m' == m)
      && (opens ==>
            && key in m' && m' - {key} == m - {key}
            && m'[key].paramsFingerprint == SpecText(c.spec)
            && m'[key].createdAt == (if key in m then m[key].createdAt else env.clock)
            && if env.postures && env.applies && !env.stop.AtComplete?
               then m'[key].status == AppliedIntent && m'[key].response == Some(env.response)
                    && m'[key].completedAt == Some(env.clock)
               else if key in m then m'[key] == m[key]
               else m'[key].status == PendingIntent && m'[key].completedAt == None)
  {
    DecideIs(w, c, env.queued, env.ownedFields);
    if Engages(w, c, now, env) {
      OutboxOfActing(w, c, now, env, Decide(c, Lookup(w.backing, c.id), env.queued, env.ownedFields));
    }
  }

  lemma OutboxOfActing(w: World, c: StoredCluster, now: nat, env: Env, decision: Decision)
    ensures
      var m, m' := w.tables.intents, Acting(w, c, now, env, decision).tables.intents;
      var begun := CS.BeginIntent(m, IntentKey(c), SpecText(c.spec), env.clock);
      m' == if !decision.Apply? || !env.token || env.stop.AtBegin? || RefusedIn(w, c) then m
            else if env.postures && env.applies && !env.stop.AtComplete?
            then CS.CompleteIntent(begun, IntentKey(c), env.response, env.clock)
            else begun
  {}
}
