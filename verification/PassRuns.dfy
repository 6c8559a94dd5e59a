/** An uninterrupted treatment of a row is a run of the call-by-call machine: the
    two descriptions of a reconcile pass agree on store, outbox and provider. */
module PassRuns {
  import opened Types
  import opened Reconcile
  import opened Outbox
  import opened Passes
  import CS = ClusterStore

  /** What a pass can see and change: the world, and where it stands itself. */
  datatype View = View(w: World, pass: Pass)

  function ViewOf(s: Plane, p: nat): View
    requires p in s.passes
  {
    View(World(s.tables, s.backing, s.calls), s.passes[p])
  }

  /** A plane that shows the view and nothing else. */
  function Stage(w: World): Plane {
    Plane(w.tables, w.backing, w.calls, 0, map[], map[], map[], 0)
  }

  function CalledWorld(w: World, pass: Pass, call: PassCall): World {
    World(w.tables.(clusters := ClustersAfter(w.tables.clusters, pass, call),
                    intents := IntentsAfter(w.tables.intents, pass.pc, call)),
          BackingAfter(w.backing, pass.pc, call),
          w.calls + Issued(pass.pc, call))
  }

  function Advance(v: View, call: PassCall): View {
    if CallEnabled(Stage(v.w), v.pass, call) then
      View(CalledWorld(v.w, v.pass, call), PassAfter(Stage(v.w), v.pass, call))
    else v
  }

  function AdvanceAll(v: View, calls: seq<PassCall>): View {
    if calls == [] then v else Advance(AdvanceAll(v, calls[..|calls| - 1]), calls[|calls| - 1])
  }

  // --- Views and runs ---

  function Events(p: nat, calls: seq<PassCall>): seq<Event> {
    seq(|calls|, i requires 0 <= i < |calls| => Event.Reconcile(p, calls[i]))
  }

  lemma ViewAfterCall(s: Plane, p: nat, call: PassCall)
    requires p in s.passes
    ensures
      var s' := Do(s, Event.Reconcile(p, call));
      p in s'.passes && ViewOf(s', p) == Advance(ViewOf(s, p), call)
  {
    SameForPass(s, Stage(ViewOf(s, p).w), s.passes[p], call);
  }

  /** A call looks at nothing outside the view. */
  lemma SameForPass(s: Plane, t: Plane, pass: Pass, call: PassCall)
    requires s.tables == t.tables && s.backing == t.backing
    ensures CallEnabled(s, pass, call) <==> CallEnabled(t, pass, call)
    ensures CallEnabled(s, pass, call) ==> PassAfter(s, pass, call) == PassAfter(t, pass, call)
  {
  }

  lemma {:induction false} ViewAfterCalls(s: Plane, p: nat, calls: seq<PassCall>)
    requires p in s.passes
    ensures
      var s' := Exec(s, Events(p, calls));
      p in s'.passes && ViewOf(s', p) == AdvanceAll(ViewOf(s, p), calls)
    decreases |calls|
  {
    if calls != [] {
      var n := |calls| - 1;
      ViewAfterCalls(s, p, calls[..n]);
      assert Events(p, calls)[..n] == Events(p, calls[..n]);
      ViewAfterCall(Exec(s, Events(p, calls[..n])), p, calls[n]);
    }
  }

  lemma {:induction false} AdvanceConcat(v: View, a: seq<PassCall>, b: seq<PassCall>)
    ensures AdvanceAll(v, a + b) == AdvanceAll(AdvanceAll(v, a), b)
    decreases |b|
  {
    if b == [] {
      assert a + b == a;
    } else {
      assert (a + b)[..|a + b| - 1] == a + b[..|b| - 1];
      AdvanceConcat(v, a, b[..|b| - 1]);
    }
  }

  lemma AdvanceOne(v: View, call: PassCall)
    ensures AdvanceAll(v, [call]) == Advance(v, call)
  {
    assert [call][..0] == [];
  }

  lemma AdvanceTwo(v: View, a: PassCall, b: PassCall)
    ensures AdvanceAll(v, [a, b]) == Advance(Advance(v, a), b)
  {
    assert [a, b][..1] == [a];
    AdvanceOne(v, a);
  }

  // --- From the action to the end of the row ---

  /** The pass is about to re-observe after `action`. */
  predicate Ready(pc: Pc, c: StoredCluster, action: Action, condition: Option<DriftCondition>) {
    || pc == Acted(c, action, condition)
    || (&& pc.Decided? && pc.c == c && (pc.decision.Leave? || pc.decision.Alarm?)
        && action == (if pc.decision.Alarm? then Drift else NoOp) && condition == ConditionFor(pc.decision))
  }

  function FinishScript(c: StoredCluster, env: Env, condition: Option<DriftCondition>): seq<PassCall> {
    if !env.reobserves || env.stop.AtRecord? then [Abort]
    else if condition != c.condition && env.stop.AtCondition? then [Reobserve, Record] + [Abort]
    else [Reobserve, Record] + [WriteCondition, if env.stop.AtAttempt? then Abort else WriteAttempt]
  }

  lemma ReobserveCall(v: View, c: StoredCluster, action: Action, condition: Option<DriftCondition>)
    requires Ready(v.pass.pc, c, action, condition)
    ensures Advance(v, Reobserve)
      == View(v.w, v.pass.(pc := Reobserved(c, action, condition, Lookup(v.w.backing, c.id))))
  {
  }

  lemma RecordCall(v: View, c: StoredCluster, action: Action, condition: Option<DriftCondition>, final: Option<Backing>)
    requires v.pass.pc == Reobserved(c, action, condition, final)
    ensures Advance(v, Record)
      == View(SetClusters(v.w, CS.RecordObservation(v.w.tables.clusters, c.id, StateOf(final), GenerationOf(final))),
              v.pass.(pc := Recorded(c, action, condition, final)))
  {
  }

  lemma RecordRuns(v: View, c: StoredCluster, action: Action, condition: Option<DriftCondition>)
    requires Ready(v.pass.pc, c, action, condition)
    ensures
      var final := Lookup(v.w.backing, c.id);
      AdvanceAll(v, [Reobserve, Record])
      == View(SetClusters(v.w, CS.RecordObservation(v.w.tables.clusters, c.id, StateOf(final), GenerationOf(final))),
              v.pass.(pc := Recorded(c, action, condition, final)))
  {
    AdvanceTwo(v, Reobserve, Record);
    ReobserveCall(v, c, action, condition);
    RecordCall(Advance(v, Reobserve), c, action, condition, Lookup(v.w.backing, c.id));
  }

  lemma ConditionCall(v: View, c: StoredCluster, action: Action, condition: Option<DriftCondition>,
                      final: Option<Backing>)
    requires v.pass.pc == Recorded(c, action, condition, final)
    ensures Advance(v, WriteCondition)
      == View(SetClusters(v.w, WithCondition(v.w.tables.clusters, c, condition)),
              v.pass.(pc := Conditioned(c, action, final)))
  {
  }

  lemma AttemptCall(v: View, c: StoredCluster, action: Action, final: Option<Backing>)
    requires v.pass.pc == Conditioned(c, action, final)
    ensures Advance(v, WriteAttempt)
      == View(SetClusters(v.w, WithAttempt(v.w.tables.clusters, c.id,
                                           AttemptAfter(c, action, StateOf(final), v.pass.now))),
              v.pass.(pc := Top))
  {
  }

  lemma AccountRuns(v: View, c: StoredCluster, action: Action, condition: Option<DriftCondition>,
                    final: Option<Backing>, stops: bool)
    requires v.pass.pc == Recorded(c, action, condition, final)
    ensures
      var m := WithCondition(v.w.tables.clusters, c, condition);
      AdvanceAll(v, [WriteCondition, if stops then Abort else WriteAttempt])
      == View(SetClusters(v.w, if stops then m
                               else WithAttempt(m, c.id, AttemptAfter(c, action, StateOf(final), v.pass.now))),
              v.pass.(pc := Top))
  {
    var m := WithCondition(v.w.tables.clusters, c, condition);
    var v1 := View(SetClusters(v.w, m), v.pass.(pc := Conditioned(c, action, final)));
    AdvanceTwo(v, WriteCondition, if stops then Abort else WriteAttempt);
    ConditionCall(v, c, action, condition, final);
    if stops {
      AbortCall(v1);
    } else {
      AttemptCall(v1, c, action, final);
    }
  }

  /** What is written once the row was re-observed. */
  lemma StatusRuns(v: View, c: StoredCluster, env: Env, action: Action, condition: Option<DriftCondition>)
    requires Ready(v.pass.pc, c, action, condition) && env.reobserves && !env.stop.AtRecord?
    ensures
      var rest := if condition != c.condition && env.stop.AtCondition? then [Abort]
                  else [WriteCondition, if env.stop.AtAttempt? then Abort else WriteAttempt];
      AdvanceAll(AdvanceAll(v, [Reobserve, Record]), rest)
      == View(Finish(v.w, c, v.pass.now, env, action, condition), v.pass.(pc := Top))
  {
    var final := Lookup(v.w.backing, c.id);
    var m1 := CS.RecordObservation(v.w.tables.clusters, c.id, StateOf(final), GenerationOf(final));
    var v1 := View(SetClusters(v.w, m1), v.pass.(pc := Recorded(c, action, condition, final)));
    RecordRuns(v, c, action, condition);
    if condition != c.condition && env.stop.AtCondition? {
      AdvanceOne(v1, Abort);
      AbortCall(v1);
    } else {
      AccountRuns(v1, c, action, condition, final, env.stop.AtAttempt?);
    }
    FinishWrites(v.w, m1, c, v.pass.now, env, action, condition);
  }

  lemma FinishWrites(w: World, m1: CS.Clusters, c: StoredCluster, now: nat, env: Env, action: Action,
                     condition: Option<DriftCondition>)
    requires env.reobserves && !env.stop.AtRecord?
    requires var final := Lookup(w.backing, c.id);
      m1 == CS.RecordObservation(w.tables.clusters, c.id, StateOf(final), GenerationOf(final))
    ensures
      var attempt := AttemptAfter(c, action, StateOf(Lookup(w.backing, c.id)), now);
      Finish(w, c, now, env, action, condition)
      == SetClusters(SetClusters(w, m1),
           if condition != c.condition && env.stop.AtCondition? then m1
           else if env.stop.AtAttempt? then WithCondition(m1, c, condition)
           else WithAttempt(WithCondition(m1, c, condition), c.id, attempt))
  {
  }

  lemma FinishRuns(v: View, c: StoredCluster, env: Env, action: Action, condition: Option<DriftCondition>)
    requires Ready(v.pass.pc, c, action, condition)
    ensures AdvanceAll(v, FinishScript(c, env, condition))
      == View(Finish(v.w, c, v.pass.now, env, action, condition), v.pass.(pc := Top))
  {
    if !env.reobserves || env.stop.AtRecord? {
      AdvanceOne(v, Abort);
      AbortCall(v);
    } else {
      var rest := if condition != c.condition && env.stop.AtCondition? then [Abort]
                  else [WriteCondition, if env.stop.AtAttempt? then Abort else WriteAttempt];
      AdvanceConcat(v, [Reobserve, Record], rest);
      StatusRuns(v, c, env, action, condition);
    }
  }

  lemma AbortCall(v: View)
    ensures Advance(v, Abort) == View(v.w, v.pass.(pc := Top))
  {
  }

  // --- Applying ---

  /** Only an apply stamps a generation, and a successful one stamps the row's;
      a failed one may have landed or left things as they were. */
  predicate Coherent(w: World, c: StoredCluster, env: Env) {
    var before := Lookup(w.backing, c.id);
    && (Stamped(env, c) || (!env.applies && env.afterApply == before))
    && KeepsStamp(before, env.afterTerminate)
    && KeepsStamp(before, env.afterSuspend)
  }

  predicate Stamped(env: Env, c: StoredCluster) {
    env.afterApply.Some? && env.afterApply.value.generation == Some(c.generation)
  }

  function ApplyAnswer(env: Env, c: StoredCluster): PassCall {
    ProviderApply(env.applies, Stamped(env, c),
                  if Stamped(env, c) then env.afterApply.value else Backing(Running, Some(c.generation), None))
  }

  /** After the provider has answered the apply. */
  function AnsweredScript(c: StoredCluster, env: Env): seq<PassCall> {
    if !env.applies then []
    else if env.stop.AtComplete? then [Abort]
    else [Complete(env.response, env.clock)] + FinishScript(c, env, None)
  }

  function ApplyScript(w: World, c: StoredCluster, env: Env): seq<PassCall> {
    if !env.token then [TakeToken(false)]
    else if env.stop.AtBegin? then [TakeToken(true), Abort]
    else
      [TakeToken(true), Begin(env.clock)] +
      if RefusedIn(w, c) then []
      else if !env.postures then [Posture, Abort]
      else [Posture, ApplyAnswer(env, c)] + AnsweredScript(c, env)
  }

  function Begun(w: World, c: StoredCluster, env: Env): World {
    SetIntents(w, CS.BeginIntent(w.tables.intents, IntentKey(c), SpecText(c.spec), env.clock))
  }

  lemma BeginRuns(v: View, c: StoredCluster, env: Env)
    requires v.pass.pc == Decided(c, Apply)
    ensures AdvanceAll(v, [TakeToken(true), Begin(env.clock)])
      == if RefusedIn(v.w, c) then View(v.w, v.pass.(pc := Top))
         else View(Begun(v.w, c, env), v.pass.(pc := Opened(c)))
  {
    AdvanceTwo(v, TakeToken(true), Begin(env.clock));
    TakeTokenCall(v, c);
    BeginCall(View(v.w, v.pass.(pc := Granted(c))), c, env);
  }

  lemma TakeTokenCall(v: View, c: StoredCluster)
    requires v.pass.pc == Decided(c, Apply)
    ensures Advance(v, TakeToken(true)) == View(v.w, v.pass.(pc := Granted(c)))
    ensures Advance(v, TakeToken(false)) == View(v.w, v.pass.(pc := Top))
  {
  }

  lemma BeginCall(v: View, c: StoredCluster, env: Env)
    requires v.pass.pc == Granted(c)
    ensures Advance(v, Begin(env.clock))
      == if RefusedIn(v.w, c) then View(v.w, v.pass.(pc := Top))
         else View(Begun(v.w, c, env), v.pass.(pc := Opened(c)))
  {
  }

  function Postured(w: World): World {
    w.(calls := w.calls + [PostureCall])
  }

  lemma PostureCallRuns(v: View, c: StoredCluster)
    requires v.pass.pc == Opened(c)
    ensures Advance(v, Posture) == View(Postured(v.w), v.pass.(pc := Pc.Postured(c)))
  {
  }

  function AppliedWorld(w: World, c: StoredCluster, env: Env): World {
    w.(backing := Put(w.backing, c.id, env.afterApply),
       calls := w.calls + [ApplyCall(IntentKey(c), c.id, c.spec, c.generation)])
  }

  lemma ApplyAnswerRuns(v: View, c: StoredCluster, env: Env)
    requires v.pass.pc == Pc.Postured(c) && Coherent(v.w, c, env)
    ensures Advance(v, ApplyAnswer(env, c))
      == View(AppliedWorld(v.w, c, env), v.pass.(pc := if env.applies then Answered(c) else Top))
  {
    assert !Stamped(env, c) ==> Put(v.w.backing, c.id, env.afterApply) == v.w.backing;
  }

  lemma CompleteCall(v: View, c: StoredCluster, env: Env)
    requires v.pass.pc == Answered(c)
    ensures Advance(v, Complete(env.response, env.clock))
      == View(SetIntents(v.w, CS.CompleteIntent(v.w.tables.intents, IntentKey(c), env.response, env.clock)),
              v.pass.(pc := Acted(c, Applied, None)))
  {
  }

  lemma CompleteRuns(v: View, c: StoredCluster, env: Env)
    requires v.pass.pc == Answered(c)
    ensures AdvanceAll(v, [Complete(env.response, env.clock)] + FinishScript(c, env, None))
      == View(Finish(SetIntents(v.w, CS.CompleteIntent(v.w.tables.intents, IntentKey(c), env.response, env.clock)),
                     c, v.pass.now, env, Applied, None),
              v.pass.(pc := Top))
  {
    AdvanceConcat(v, [Complete(env.response, env.clock)], FinishScript(c, env, None));
    AdvanceOne(v, Complete(env.response, env.clock));
    CompleteCall(v, c, env);
    FinishRuns(Advance(v, Complete(env.response, env.clock)), c, env, Applied, None);
  }

  lemma AnsweredRuns(v: View, c: StoredCluster, env: Env)
    requires v.pass.pc == (if env.applies then Answered(c) else Top)
    ensures AdvanceAll(v, AnsweredScript(c, env))
      == View(if env.applies && !env.stop.AtComplete? then
                Finish(SetIntents(v.w, CS.CompleteIntent(v.w.tables.intents, IntentKey(c), env.response, env.clock)),
                       c, v.pass.now, env, Applied, None)
              else v.w,
              v.pass.(pc := Top))
  {
    if env.applies {
      if env.stop.AtComplete? {
        AdvanceOne(v, Abort);
        AbortCall(v);
      } else {
        CompleteRuns(v, c, env);
      }
    }
  }

  /** After the outbox row is open. */
  lemma OpenedRuns(v: View, c: StoredCluster, env: Env)
    requires v.pass.pc == Opened(c) && Coherent(v.w, c, env) && env.postures
    ensures
      var w := AppliedWorld(Postured(v.w), c, env);
      AdvanceAll(v, [Posture, ApplyAnswer(env, c)] + AnsweredScript(c, env))
      == View(if env.applies && !env.stop.AtComplete? then
                Finish(SetIntents(w, CS.CompleteIntent(w.tables.intents, IntentKey(c), env.response, env.clock)),
                       c, v.pass.now, env, Applied, None)
              else w,
              v.pass.(pc := Top))
  {
    AdvanceConcat(v, [Posture, ApplyAnswer(env, c)], AnsweredScript(c, env));
    ApplyPair(v, c, env);
    var w := AppliedWorld(Postured(v.w), c, env);
    AnsweredRuns(View(w, v.pass.(pc := if env.applies then Answered(c) else Top)), c, env);
  }

  lemma ApplyPair(v: View, c: StoredCluster, env: Env)
    requires v.pass.pc == Opened(c) && Coherent(v.w, c, env)
    ensures AdvanceAll(v, [Posture, ApplyAnswer(env, c)])
      == View(AppliedWorld(Postured(v.w), c, env), v.pass.(pc := if env.applies then Answered(c) else Top))
  {
    AdvanceTwo(v, Posture, ApplyAnswer(env, c));
    PostureCallRuns(v, c);
    ApplyAnswerRuns(View(Postured(v.w), v.pass.(pc := Pc.Postured(c))), c, env);
  }

  lemma PostureFails(v: View, c: StoredCluster)
    requires v.pass.pc == Opened(c)
    ensures AdvanceAll(v, [Posture, Abort]) == View(Postured(v.w), v.pass.(pc := Top))
  {
    AdvanceTwo(v, Posture, Abort);
    PostureCallRuns(v, c);
    AbortCall(View(Postured(v.w), v.pass.(pc := Pc.Postured(c))));
  }

  lemma ApplyRuns(v: View, c: StoredCluster, env: Env)
    requires v.pass.pc == Decided(c, Apply) && Coherent(v.w, c, env)
    ensures AdvanceAll(v, ApplyScript(v.w, c, env)) == View(ApplyRow(v.w, c, v.pass.now, env), v.pass.(pc := Top))
  {
    if !env.token {
      AdvanceOne(v, TakeToken(false));
      TakeTokenCall(v, c);
    } else if env.stop.AtBegin? {
      AdvanceTwo(v, TakeToken(true), Abort);
      TakeTokenCall(v, c);
      AbortCall(View(v.w, v.pass.(pc := Granted(c))));
    } else {
      BeginRuns(v, c, env);
      var v1 := View(Begun(v.w, c, env), v.pass.(pc := Opened(c)));
      var begin, script := [TakeToken(true), Begin(env.clock)], ApplyScript(v.w, c, env);
      AdvanceConcat(v, begin, script[2..]);
      assert script == begin + script[2..];
      if RefusedIn(v.w, c) {
        assert script[2..] == [];
      } else if !env.postures {
        assert script[2..] == [Posture, Abort];
        PostureFails(v1, c);
      } else {
        OpenedRuns(v1, c, env);
        assert script[2..] == [Posture, ApplyAnswer(env, c)] + AnsweredScript(c, env);
      }
    }
  }

  // --- A whole row ---

  function ActScript(w: World, c: StoredCluster, env: Env, decision: Decision): seq<PassCall> {
    match decision
    case Apply => ApplyScript(w, c, env)
    case Terminate =>
      [ProviderTerminate(env.terminates, env.afterTerminate)]
        + if env.terminates then FinishScript(c, env, None) else []
    case Suspend =>
      [ProviderSuspend(env.suspends, env.afterSuspend)] + if env.suspends then FinishScript(c, env, None) else []
    case _ => FinishScript(c, env, ConditionFor(decision))
  }

  /** The calls one treatment of the first listed row makes. */
  function Script(w: World, c: StoredCluster, now: nat, env: Env): seq<PassCall> {
    if BackedOff(c, now) then [Skip]
    else if !env.observes || env.stop.AtCheck? then [Observe, Abort]
    else if w.tables.quarantined then [Observe, CheckQuarantine] + [if env.stop.AtFence? then Abort else RecordFenced]
    else if env.stop.AtResolve? then [Observe, CheckQuarantine] + [Abort]
    else
      [Observe, CheckQuarantine] + ([Resolve(env.queued, env.ownedFields)] +
        ActScript(w, c, env, Decide(c, Lookup(w.backing, c.id), env.queued, env.ownedFields)))
  }

  lemma TerminateCallRuns(v: View, c: StoredCluster, env: Env)
    requires v.pass.pc == Decided(c, Terminate) && Coherent(v.w, c, env)
    ensures Advance(v, ProviderTerminate(env.terminates, env.afterTerminate))
      == View(v.w.(backing := Put(v.w.backing, c.id, env.afterTerminate), calls := v.w.calls + [TerminateCall(c.id)]),
              v.pass.(pc := if env.terminates then Acted(c, TerminatedCluster, None) else Top))
  {
  }

  lemma SuspendCallRuns(v: View, c: StoredCluster, env: Env)
    requires v.pass.pc == Decided(c, Suspend) && Coherent(v.w, c, env)
    ensures Advance(v, ProviderSuspend(env.suspends, env.afterSuspend))
      == View(v.w.(backing := Put(v.w.backing, c.id, env.afterSuspend), calls := v.w.calls + [SuspendCall(c.id)]),
              v.pass.(pc := if env.suspends then Acted(c, SuspendedCluster, None) else Top))
  {
  }

  lemma ActRuns(v: View, c: StoredCluster, env: Env, decision: Decision)
    requires v.pass.pc == Decided(c, decision) && Coherent(v.w, c, env)
    ensures AdvanceAll(v, ActScript(v.w, c, env, decision))
      == View(Acting(v.w, c, v.pass.now, env, decision), v.pass.(pc := Top))
  {
    match decision
    case Apply => ApplyRuns(v, c, env);
    case Terminate =>
      var call := ProviderTerminate(env.terminates, env.afterTerminate);
      AdvanceConcat(v, [call], if env.terminates then FinishScript(c, env, None) else []);
      AdvanceOne(v, call);
      TerminateCallRuns(v, c, env);
      if env.terminates {
        FinishRuns(Advance(v, call), c, env, TerminatedCluster, None);
      }
    case Suspend =>
      var call := ProviderSuspend(env.suspends, env.afterSuspend);
      AdvanceConcat(v, [call], if env.suspends then FinishScript(c, env, None) else []);
      AdvanceOne(v, call);
      SuspendCallRuns(v, c, env);
      if env.suspends {
        FinishRuns(Advance(v, call), c, env, SuspendedCluster, None);
      }
    case Alarm(condition) => FinishRuns(v, c, env, Drift, Some(condition));
    case Leave => FinishRuns(v, c, env, NoOp, None);
  }

  lemma ObserveCall(v: View, c: StoredCluster)
    requires v.pass.pc.Top? && v.pass.todo != [] && v.pass.todo[0] == c && !BackedOff(c, v.pass.now)
    ensures Advance(v, Observe)
      == View(v.w, v.pass.(todo := v.pass.todo[1..], pc := Seen(c, Lookup(v.w.backing, c.id))))
  {
  }

  lemma SkipCall(v: View)
    requires v.pass.pc.Top? && v.pass.todo != [] && BackedOff(v.pass.todo[0], v.pass.now)
    ensures Advance(v, Skip) == View(v.w, v.pass.(todo := v.pass.todo[1..]))
  {
  }

  lemma CheckCall(v: View, c: StoredCluster, o: Option<Backing>)
    requires v.pass.pc == Seen(c, o)
    ensures Advance(v, CheckQuarantine)
      == View(v.w, v.pass.(pc := if v.w.tables.quarantined then Fenced(c, o) else Cleared(c, o)))
  {
  }

  lemma FencedCall(v: View, c: StoredCluster, o: Option<Backing>)
    requires v.pass.pc == Fenced(c, o)
    ensures Advance(v, RecordFenced)
      == View(SetClusters(v.w, CS.RecordObservation(v.w.tables.clusters, c.id, StateOf(o), GenerationOf(o))),
              v.pass.(pc := Top))
  {
  }

  lemma ResolveCall(v: View, c: StoredCluster, o: Option<Backing>, env: Env)
    requires v.pass.pc == Cleared(c, o)
    ensures Advance(v, Resolve(env.queued, env.ownedFields))
      == View(v.w, v.pass.(pc := Decided(c, Decide(c, o, env.queued, env.ownedFields))))
  {
  }

  /** From the decision point to the end of the row. */
  lemma ResolvedRuns(v: View, c: StoredCluster, env: Env)
    requires v.pass.pc == Cleared(c, Lookup(v.w.backing, c.id)) && Coherent(v.w, c, env)
    ensures
      var decision := Decide(c, Lookup(v.w.backing, c.id), env.queued, env.ownedFields);
      AdvanceAll(v, [Resolve(env.queued, env.ownedFields)] + ActScript(v.w, c, env, decision))
      == View(Acting(v.w, c, v.pass.now, env, decision), v.pass.(pc := Top))
  {
    var o := Lookup(v.w.backing, c.id);
    var decision := Decide(c, o, env.queued, env.ownedFields);
    AdvanceConcat(v, [Resolve(env.queued, env.ownedFields)], ActScript(v.w, c, env, decision));
    AdvanceOne(v, Resolve(env.queued, env.ownedFields));
    ResolveCall(v, c, o, env);
    ActRuns(View(v.w, v.pass.(pc := Decided(c, decision))), c, env, decision);
  }

  /** One row, from the backoff gate to the accounting. */
  lemma RowRuns(v: View, c: StoredCluster, env: Env)
    requires v.pass.pc.Top? && v.pass.todo != [] && v.pass.todo[0] == c && Coherent(v.w, c, env)
    ensures AdvanceAll(v, Script(v.w, c, v.pass.now, env))
      == View(Treat(v.w, c, v.pass.now, env), v.pass.(todo := v.pass.todo[1..]))
  {
    var o, next := Lookup(v.w.backing, c.id), v.pass.(todo := v.pass.todo[1..]);
    if BackedOff(c, v.pass.now) {
      AdvanceOne(v, Skip);
      SkipCall(v);
    } else if !env.observes || env.stop.AtCheck? {
      AdvanceTwo(v, Observe, Abort);
      ObserveCall(v, c);
      AbortCall(View(v.w, next.(pc := Seen(c, o))));
    } else {
      AdvanceTwo(v, Observe, CheckQuarantine);
      ObserveCall(v, c);
      CheckCall(View(v.w, next.(pc := Seen(c, o))), c, o);
      if v.w.tables.quarantined {
        var call, v1 := if env.stop.AtFence? then Abort else RecordFenced, View(v.w, next.(pc := Fenced(c, o)));
        AdvanceConcat(v, [Observe, CheckQuarantine], [call]);
        AdvanceOne(v1, call);
        FencedCall(v1, c, o);
        AbortCall(v1);
      } else if env.stop.AtResolve? {
        AdvanceConcat(v, [Observe, CheckQuarantine], [Abort]);
        AdvanceOne(View(v.w, next.(pc := Cleared(c, o))), Abort);
        AbortCall(View(v.w, next.(pc := Cleared(c, o))));
      } else {
        var decision := Decide(c, o, env.queued, env.ownedFields);
        AdvanceConcat(v, [Observe, CheckQuarantine],
                      [Resolve(env.queued, env.ownedFields)] + ActScript(v.w, c, env, decision));
        ResolvedRuns(View(v.w, next.(pc := Cleared(c, o))), c, env);
      }
    }
  }

  // --- A whole pass ---

  function PassScript(w: World, rows: seq<StoredCluster>, now: nat, envs: Id -> Env): seq<PassCall> {
    if rows == [] then []
    else
      var n := |rows| - 1;
      PassScript(w, rows[..n], now, envs) + Script(TreatAll(w, rows[..n], now, envs), rows[n], now, envs(rows[n].id))
  }

  ghost predicate CoherentPass(w: World, rows: seq<StoredCluster>, now: nat, envs: Id -> Env) {
    forall k | 0 <= k < |rows| :: Coherent(TreatAll(w, rows[..k], now, envs), rows[k], envs(rows[k].id))
  }

  lemma {:induction false} RowsRun(v: View, rows: seq<StoredCluster>, rest: seq<StoredCluster>, envs: Id -> Env)
    requires v.pass.pc.Top? && v.pass.todo == rows + rest && CoherentPass(v.w, rows, v.pass.now, envs)
    ensures AdvanceAll(v, PassScript(v.w, rows, v.pass.now, envs))
      == View(TreatAll(v.w, rows, v.pass.now, envs), v.pass.(todo := rest))
    decreases |rows|
  {
    if rows == [] {
      assert rows + rest == rest;
    } else {
      var n := |rows| - 1;
      var front, c := rows[..n], rows[n];
      assert rows + rest == front + ([c] + rest);
      CoherentFront(v.w, rows, v.pass.now, envs);
      RowsRun(v, front, [c] + rest, envs);
      var v1 := View(TreatAll(v.w, front, v.pass.now, envs), v.pass.(todo := [c] + rest));
      AdvanceConcat(v, PassScript(v.w, front, v.pass.now, envs), Script(v1.w, c, v.pass.now, envs(c.id)));
      RowRuns(v1, c, envs(c.id));
      assert ([c] + rest)[1..] == rest;
    }
  }

  lemma CoherentFront(w: World, rows: seq<StoredCluster>, now: nat, envs: Id -> Env)
    requires rows != [] && CoherentPass(w, rows, now, envs)
    ensures CoherentPass(w, rows[..|rows| - 1], now, envs)
    ensures Coherent(TreatAll(w, rows[..|rows| - 1], now, envs), rows[|rows| - 1], envs(rows[|rows| - 1].id))
  {
    var front := rows[..|rows| - 1];
    forall k | 0 <= k < |front| ensures Coherent(TreatAll(w, front[..k], now, envs), front[k], envs(front[k].id)) {
      assert front[..k] == rows[..k];
    }
  }

  /** A full pass over what it listed, with nothing in between, is a run of the
      machine and leaves store, outbox, provider and call log as the loop over
      `reconcile_one` does: what is proved of every run holds of the loop. */
  lemma PassIsRun(s: Plane, p: nat, rows: seq<StoredCluster>, now: nat, envs: Id -> Env)
    requires p in s.passes && s.passes[p] == Pass(rows, now, Top)
    requires CoherentPass(ViewOf(s, p).w, rows, now, envs)
    ensures
      var s' := Exec(s, Events(p, PassScript(ViewOf(s, p).w, rows, now, envs)));
      && p in s'.passes && s'.passes[p] == Pass([], now, Top)
      && ViewOf(s', p).w == TreatAll(ViewOf(s, p).w, rows, now, envs)
  {
    var v := ViewOf(s, p);
    ViewAfterCalls(s, p, PassScript(v.w, rows, now, envs));
    assert rows + [] == rows;
    RowsRun(v, rows, [], envs);
  }
}
