/** The global actuation budget: a token bucket driven by the passes' clock, and
    what it bounds over whole runs of the plane. Amounts are real numbers. */
module TokenBucket {
  import opened Types
  import opened Outbox

  datatype Level = Level(tokens: real, last: nat)

  datatype Limits = Limits(capacity: real, refillPerSec: real) {
    predicate Valid() { capacity >= 0.0 && refillPerSec >= 0.0 }
  }

  /** What flows in between two clock readings: refill times the seconds between them. */
  function Inflow(l: Limits, last: nat, now: nat): real {
    SatSub(now, last) as real * l.refillPerSec
  }

  function Refilled(l: Limits, b: Level, now: nat): real {
    var full := b.tokens + Inflow(l, b.last, now);
    if full < l.capacity then full else l.capacity
  }

  predicate Grants(l: Limits, b: Level, now: nat) {
    Refilled(l, b, now) >= 1.0
  }

  function Taken(l: Limits, b: Level, now: nat): Level {
    Level(if Grants(l, b, now) then Refilled(l, b, now) - 1.0 else Refilled(l, b, now), now)
  }

  class TokenBucket {
    var tokens: real
    const capacity: real
    const refillPerSec: real
    var last: nat

    function State(): Level
      reads this
    {
      Level(tokens, last)
    }

    function Settings(): Limits
      reads this
    {
      Limits(capacity, refillPerSec)
    }

    constructor (limits: Limits, now: nat)
      ensures State() == Level(limits.capacity, now) && Settings() == limits
    {
      tokens, capacity, refillPerSec, last := limits.capacity, limits.capacity, limits.refillPerSec, now;
    }

    method TryTake(now: nat) returns (granted: bool)
      modifies this
      ensures granted <==> Grants(Settings(), old(State()), now)
      ensures State() == Taken(Settings(), old(State()), now)
      ensures Settings().Valid() && 0.0 <= old(tokens) <= capacity ==> 0.0 <= tokens <= capacity
    {
      var elapsed := if now < last then 0 else now - last;
      if Settings().Valid() && 0.0 <= tokens <= capacity {
        BudgetStep(Settings(), State(), now);
      }
      tokens := tokens + elapsed as real * refillPerSec;
      if tokens > capacity {
        tokens := capacity;
      }
      last := now;
      if tokens >= 1.0 {
        tokens := tokens - 1.0;
        return true;
      }
      return false;
    }
  }

  // --- Any stretch of calls ---

  function After(l: Limits, b: Level, times: seq<nat>): Level {
    if times == [] then b else Taken(l, After(l, b, times[..|times| - 1]), times[|times| - 1])
  }

  function GrantCount(l: Limits, b: Level, times: seq<nat>): nat {
    if times == [] then 0 else
      GrantCount(l, b, times[..|times| - 1])
      + if Grants(l, After(l, b, times[..|times| - 1]), times[|times| - 1]) then 1 else 0
  }

  /** Seconds the clock moved forward over the calls; moves back count nothing. */
  function Forward(start: nat, times: seq<nat>): nat {
    if times == [] then 0
    else Forward(start, times[..|times| - 1]) + SatSub(times[|times| - 1], LastTime(start, times[..|times| - 1]))
  }

  function LastTime(start: nat, times: seq<nat>): nat {
    if times == [] then start else times[|times| - 1]
  }

  /** All that flows in over the calls. */
  function TotalInflow(l: Limits, start: nat, times: seq<nat>): real {
    if times == [] then 0.0 else
      TotalInflow(l, start, times[..|times| - 1])
      + Inflow(l, LastTime(start, times[..|times| - 1]), times[|times| - 1])
  }

  /** What flows in is refill * (seconds the clock moved forward). */
  lemma {:induction false} TotalInflowIsProduct(l: Limits, start: nat, times: seq<nat>)
    ensures TotalInflow(l, start, times) == Forward(start, times) as real * l.refillPerSec
  {
    if times != [] {
      var prefix := times[..|times| - 1];
      TotalInflowIsProduct(l, start, prefix);
      var a, b := Forward(start, prefix), SatSub(times[|times| - 1], LastTime(start, prefix));
      assert (a + b) as real * l.refillPerSec == a as real * l.refillPerSec + b as real * l.refillPerSec;
    }
  }

  lemma BudgetStep(l: Limits, b: Level, now: nat)
    requires l.Valid() && 0.0 <= b.tokens <= l.capacity
    ensures 0.0 <= Taken(l, b, now).tokens <= l.capacity
    ensures (if Grants(l, b, now) then 1.0 else 0.0) + Taken(l, b, now).tokens <= b.tokens + Inflow(l, b.last, now)
  {
    assert Inflow(l, b.last, now) >= 0.0;
  }

  /** Over any calls at any times: what was granted plus what is left never
      exceeds what was there plus what flowed in, and the level stays within
      0 and capacity. */
  lemma {:induction false} GrantsWithinInflow(l: Limits, b: Level, times: seq<nat>)
    requires l.Valid() && 0.0 <= b.tokens <= l.capacity
    ensures var b' := After(l, b, times);
      && 0.0 <= b'.tokens <= l.capacity && b'.last == LastTime(b.last, times)
      && GrantCount(l, b, times) as real + b'.tokens <= b.tokens + TotalInflow(l, b.last, times)
  {
    if times != [] {
      GrantsWithinInflow(l, b, times[..|times| - 1]);
      BudgetStep(l, After(l, b, times[..|times| - 1]), times[|times| - 1]);
    }
  }

  // --- The exact account ---

  /** What a call pours over the rim: all above the capacity. */
  function Spill(l: Limits, b: Level, now: nat): real {
    var full := b.tokens + Inflow(l, b.last, now);
    if full > l.capacity then full - l.capacity else 0.0
  }

  function TotalSpill(l: Limits, b: Level, times: seq<nat>): real {
    if times == [] then 0.0 else
      TotalSpill(l, b, times[..|times| - 1]) + Spill(l, After(l, b, times[..|times| - 1]), times[|times| - 1])
  }

  /** One call: it is granted exactly when, after the refill, a whole token is there;
      a grant takes exactly one; only what does not fit is lost, and a call that
      loses something leaves the bucket full but for its own token. */
  lemma CallAccount(l: Limits, b: Level, now: nat)
    ensures var granted, b' := Grants(l, b, now), Taken(l, b, now);
      && (granted <==> b.tokens + Inflow(l, b.last, now) - Spill(l, b, now) >= 1.0)
      && (if granted then 1.0 else 0.0) + b'.tokens + Spill(l, b, now) == b.tokens + Inflow(l, b.last, now)
      && (Spill(l, b, now) > 0.0 ==> (if granted then 1.0 else 0.0) + b'.tokens == l.capacity)
      && b'.last == now
  {}

  /** Nothing is lost but what is spilled: over any calls, the grants and what is left
      and what spilled are exactly what was there and what flowed in. */
  lemma {:induction false} ExactAccount(l: Limits, b: Level, times: seq<nat>)
    ensures GrantCount(l, b, times) as real + After(l, b, times).tokens + TotalSpill(l, b, times)
      == b.tokens + TotalInflow(l, b.last, times)
    ensures After(l, b, times).last == LastTime(b.last, times)
  {
    if times != [] {
      var prefix, now := times[..|times| - 1], times[|times| - 1];
      ExactAccount(l, b, prefix);
      CallAccount(l, After(l, b, prefix), now);
      var granted := Grants(l, After(l, b, prefix), now);
      assert (GrantCount(l, b, prefix) + if granted then 1 else 0) as real
        == GrantCount(l, b, prefix) as real + if granted then 1.0 else 0.0;
    }
  }

  /** A refused call ends a stretch that gave out all it could: without a spill, more
      than what was there and what flowed in, less one token. */
  lemma RefusedMeansSpent(l: Limits, b: Level, times: seq<nat>)
    requires times != [] && TotalSpill(l, b, times) == 0.0
    requires !Grants(l, After(l, b, times[..|times| - 1]), times[|times| - 1])
    ensures GrantCount(l, b, times) as real > b.tokens + TotalInflow(l, b.last, times) - 1.0
  {
    ExactAccount(l, b, times);
    CallAccount(l, After(l, b, times[..|times| - 1]), times[|times| - 1]);
    LastCall(l, b, times);
  }

  lemma LastCall(l: Limits, b: Level, times: seq<nat>)
    requires times != []
    ensures After(l, b, times) == Taken(l, After(l, b, times[..|times| - 1]), times[|times| - 1])
  {}

  /** As many asks as there are whole tokens are all granted, at whatever times they come. */
  lemma {:induction false} TokensAreThere(l: Limits, b: Level, times: seq<nat>)
    requires l.Valid() && |times| as real <= b.tokens <= l.capacity
    ensures GrantCount(l, b, times) == |times|
    ensures b.tokens - |times| as real <= After(l, b, times).tokens <= l.capacity
  {
    if times != [] {
      TokensAreThere(l, b, times[..|times| - 1]);
      AskAgain(l, After(l, b, times[..|times| - 1]), times[|times| - 1]);
    }
  }

  lemma AskAgain(l: Limits, b: Level, now: nat)
    requires l.Valid() && 1.0 <= b.tokens <= l.capacity
    ensures Grants(l, b, now) && b.tokens - 1.0 <= Taken(l, b, now).tokens <= l.capacity
  {
    assert Inflow(l, b.last, now) >= 0.0;
  }

  /** From a full bucket a burst of up to the capacity is granted in full. */
  lemma FullBurst(l: Limits, start: nat, times: seq<nat>)
    requires l.Valid() && |times| as real <= l.capacity
    ensures GrantCount(l, Level(l.capacity, start), times) == |times|
  {
    TokensAreThere(l, Level(l.capacity, start), times);
  }

  predicate Ordered(start: nat, times: seq<nat>) {
    && (forall i | 0 <= i < |times| :: start <= times[i])
    && (forall i, j | 0 <= i < j < |times| :: times[i] <= times[j])
  }

  lemma OrderedSplits(start: nat, times: seq<nat>)
    requires times != []
    ensures var prefix := times[..|times| - 1];
      Ordered(start, times) <==> Ordered(start, prefix) && LastTime(start, prefix) <= times[|times| - 1]
  {
    var prefix := times[..|times| - 1];
    assert forall i | 0 <= i < |prefix| :: prefix[i] == times[i];
    if Ordered(start, prefix) && LastTime(start, prefix) <= times[|times| - 1] {
      assert forall i | 0 <= i < |prefix| :: times[i] <= LastTime(start, prefix);
    }
  }

  /** The clock moves forward by at least the time elapsed, and by exactly that if
      and only if it never steps back. */
  lemma {:induction false} ForwardIsElapsedIff(start: nat, times: seq<nat>)
    ensures Forward(start, times) >= LastTime(start, times) - start
    ensures Forward(start, times) == LastTime(start, times) - start <==> Ordered(start, times)
  {
    if times != [] {
      ForwardIsElapsedIff(start, times[..|times| - 1]);
      OrderedSplits(start, times);
    }
  }

  lemma {:induction false} CountFront(l: Limits, b: Level, first: nat, rest: seq<nat>)
    ensures After(l, b, [first] + rest) == After(l, Taken(l, b, first), rest)
    ensures GrantCount(l, b, [first] + rest)
      == (if Grants(l, b, first) then 1 else 0) + GrantCount(l, Taken(l, b, first), rest)
  {
    var times := [first] + rest;
    if rest == [] {
      assert times == [first] && times[..0] == [];
    } else {
      CountFront(l, b, first, rest[..|rest| - 1]);
      assert times[..|times| - 1] == [first] + rest[..|rest| - 1];
    }
  }

  /** For every stretch of calls, however full or long idle the bucket was before
      it, the grants are at most the capacity plus what flows in between the
      first call of the stretch and its last. */
  lemma {:induction false} GrantsInAStretch(l: Limits, b: Level, first: nat, rest: seq<nat>)
    requires l.Valid() && 0.0 <= b.tokens <= l.capacity
    ensures GrantCount(l, b, [first] + rest) as real <= l.capacity + TotalInflow(l, first, rest)
  {
    CountFront(l, b, first, rest);
    BudgetStep(l, b, first);
    GrantsWithinInflow(l, Taken(l, b, first), rest);
  }

  lemma InflowInSeconds(l: Limits, first: nat, rest: seq<nat>)
    requires Ordered(first, rest)
    ensures first <= LastTime(first, rest)
    ensures TotalInflow(l, first, rest) == Inflow(l, first, LastTime(first, rest))
  {
    TotalInflowIsProduct(l, first, rest);
    ForwardIsElapsedIff(first, rest);
  }

  /** On a clock that does not step back: capacity plus refill times the time from
      first to last call. */
  lemma GrantsInSeconds(l: Limits, b: Level, first: nat, rest: seq<nat>)
    requires l.Valid() && 0.0 <= b.tokens <= l.capacity && Ordered(first, rest)
    ensures first <= LastTime(first, rest)
    ensures GrantCount(l, b, [first] + rest) as real
      <= l.capacity + Inflow(l, first, LastTime(first, rest))
  {
    GrantsInAStretch(l, b, first, rest);
    InflowInSeconds(l, first, rest);
  }

  // --- A clock that steps back ---

  function Sawtooth(n: nat): seq<nat> {
    if n == 0 then [] else Sawtooth(n - 1) + [0, 10]
  }

  /** The order matters: under a clock that swings between 0 and 10 every swing
      refills the bucket again, so a ten-second window holds any number of grants. */
  lemma {:induction false} BackwardClockGrantsForever(n: nat)
    ensures var l := Limits(1.0, 0.1);
      && GrantCount(l, Level(0.0, 0), Sawtooth(n)) == n
      && After(l, Level(0.0, 0), Sawtooth(n)).tokens == 0.0
      && (forall i | 0 <= i < |Sawtooth(n)| :: Sawtooth(n)[i] <= 10)
  {
    if n > 0 {
      BackwardClockGrantsForever(n - 1);
      var l, b := Limits(1.0, 0.1), Level(0.0, 0);
      var prefix := Sawtooth(n - 1);
      var times := prefix + [0, 10];
      assert times[..|times| - 1] == prefix + [0];
      assert (prefix + [0])[..|prefix|] == prefix;
      var b1 := Taken(l, After(l, b, prefix), 0);
      assert b1 == Level(0.0, 0);
      assert Refilled(l, b1, 10) == 1.0;
    }
  }

  // --- The plane's budget ---

  function ApplyCount(calls: seq<Call>): nat {
    if calls == [] then 0
    else ApplyCount(calls[..|calls| - 1]) + if calls[|calls| - 1].ApplyCall? then 1 else 0
  }

  /** The passes that took a token and have not yet spent it. */
  function Holders(passes: map<nat, Pass>): set<nat> {
    set p | p in passes && (passes[p].pc.Granted? || passes[p].pc.Opened? || passes[p].pc.Postured?)
  }

  lemma CountMore(calls: seq<Call>, more: seq<Call>)
    requires |more| <= 1
    ensures ApplyCount(calls + more) == ApplyCount(calls) + ApplyCount(more)
  {
    if more == [] {
      assert calls + more == calls;
    } else {
      assert (calls + more)[..|calls + more| - 1] == calls;
      assert more[..0] == [];
    }
  }

  lemma HoldersMove(passes: map<nat, Pass>, p: nat, pass: Pass)
    requires p in passes
    ensures var holds := pass.pc.Granted? || pass.pc.Opened? || pass.pc.Postured?;
      var held := p in Holders(passes);
      |Holders(passes[p := pass])| + (if held then 1 else 0) == |Holders(passes)| + (if holds then 1 else 0)
  {
    var rest := Holders(passes) - {p};
    assert Holders(passes[p := pass]) - {p} == rest;
    assert Holders(passes) == if p in Holders(passes) then rest + {p} else rest;
    assert Holders(passes[p := pass]) == if p in Holders(passes[p := pass]) then rest + {p} else rest;
  }

  /** Tokens granted so far and neither spent nor held. */
  ghost function Slack(s: Plane): int {
    s.granted - ApplyCount(s.calls) - |Holders(s.passes)|
  }

  lemma SlackCall(s: Plane, p: nat, call: PassCall)
    requires p in s.passes && CallEnabled(s, s.passes[p], call)
    ensures Slack(s) <= Slack(AfterCall(s, p, call))
  {
    var pass := s.passes[p];
    CountMore(s.calls, Issued(pass.pc, call));
    HoldersMove(s.passes, p, PassAfter(s, pass, call));
    IssuedApplies(pass.pc, call);
  }

  lemma SlackStep(s: Plane, e: Event)
    requires Enabled(s, e)
    ensures Slack(s) <= Slack(Next(s, e))
  {
    match e
    case Reconcile(p, call) => SlackCall(s, p, call);
    case ReconcilePool(p, call) =>
      if call.PoolApply? {
        CountMore(s.calls, [ApplyPoolCall(call.name)]);
      } else if call.PoolDelete? {
        CountMore(s.calls, [DeletePoolCall(call.name)]);
      }
    case SweepPolicies(id) => CountMore(s.calls, [ReapPoliciesCall(id)]);
    case List(p, now, order) =>
      assert Holders(s.passes[p := Pass(order, now, Top)]) == Holders(s.passes);
    case Crash(p) =>
      assert Holders(s.passes - {p}) == Holders(s.passes) - {p};
    case _ =>
  }

  lemma IssuedApplies(pc: Pc, call: PassCall)
    ensures ApplyCount(Issued(pc, call)) == if call.ProviderApply? && !pc.Top? then 1 else 0
  {
    var issued := Issued(pc, call);
    if issued != [] {
      assert issued[..0] == [];
    }
  }

  /** Over any run from any plane the applies, over all clusters and all passes,
      crashed ones included, never outnumber the tokens granted in it and those
      held at its start. */
  lemma {:induction false} AppliesWithinGrants(s: Plane, es: seq<Event>)
    ensures Slack(s) <= Slack(Exec(s, es))
    ensures var s' := Exec(s, es);
      ApplyCount(s'.calls) - ApplyCount(s.calls) <= s'.granted - s.granted + |Holders(s.passes)|
  {
    if es != [] {
      var before, e := Exec(s, es[..|es| - 1]), es[|es| - 1];
      AppliesWithinGrants(s, es[..|es| - 1]);
      if Enabled(before, e) {
        SlackStep(before, e);
      }
    }
  }

  predicate Asks(s: Plane, e: Event) {
    e.Reconcile? && e.call.TakeToken? && Enabled(s, e)
  }

  /** The clock readings at which a run asked the bucket. */
  function AskTimes(es: seq<Event>): seq<nat> {
    if es == [] then []
    else
      var before, e := Exec(Empty, es[..|es| - 1]), es[|es| - 1];
      AskTimes(es[..|es| - 1]) + if Asks(before, e) then [before.passes[e.p].now] else []
  }

  /** The run's token answers are the bucket's. */
  predicate Metered(l: Limits, b: Level, es: seq<Event>) {
    es == [] ||
    var before, e := Exec(Empty, es[..|es| - 1]), es[|es| - 1];
    && Metered(l, b, es[..|es| - 1])
    && (Asks(before, e) ==>
          (e.call.ok <==> Grants(l, After(l, b, AskTimes(es[..|es| - 1])), before.passes[e.p].now)))
  }

  lemma OneMoreAsk(l: Limits, b: Level, times: seq<nat>, now: nat)
    ensures GrantCount(l, b, times + [now])
      == GrantCount(l, b, times) + if Grants(l, After(l, b, times), now) then 1 else 0
  {
    assert (times + [now])[..|times|] == times;
  }

  lemma {:induction false} GrantedIsCounted(l: Limits, b: Level, es: seq<Event>)
    requires Metered(l, b, es)
    ensures Exec(Empty, es).granted == GrantCount(l, b, AskTimes(es))
  {
    if es != [] {
      var prefix, e := es[..|es| - 1], es[|es| - 1];
      var before := Exec(Empty, prefix);
      GrantedIsCounted(l, b, prefix);
      if Asks(before, e) {
        OneMoreAsk(l, b, AskTimes(prefix), before.passes[e.p].now);
        assert AskTimes(es) == AskTimes(prefix) + [before.passes[e.p].now];
      } else {
        assert AskTimes(es) == AskTimes(prefix) + [];
        assert AskTimes(es) == AskTimes(prefix);
        OnlyAsksCount(before, e);
      }
    }
  }

  lemma OnlyAsksCount(s: Plane, e: Event)
    requires !Asks(s, e)
    ensures Do(s, e).granted == s.granted
  {}

  lemma {:induction false} AsksGrow(es: seq<Event>, k: nat)
    requires k <= |es|
    ensures AskTimes(es[..k]) <= AskTimes(es)
    decreases |es|
  {
    if k < |es| {
      AsksGrow(es[..|es| - 1], k);
      assert es[..|es| - 1][..k] == es[..k];
    } else {
      assert es[..k] == es;
    }
  }

  lemma {:induction false} MeteredPrefix(l: Limits, b: Level, es: seq<Event>, k: nat)
    requires k <= |es| && Metered(l, b, es)
    ensures Metered(l, b, es[..k])
    decreases |es|
  {
    if k < |es| {
      MeteredPrefix(l, b, es[..|es| - 1], k);
      assert es[..|es| - 1][..k] == es[..k];
    } else {
      assert es[..k] == es;
    }
  }

  lemma {:induction false} CountConcat(l: Limits, b: Level, x: seq<nat>, y: seq<nat>)
    ensures GrantCount(l, b, x + y) == GrantCount(l, b, x) + GrantCount(l, After(l, b, x), y)
    ensures After(l, b, x + y) == After(l, After(l, b, x), y)
  {
    if y == [] {
      assert x + y == x;
    } else {
      assert (x + y)[..|x + y| - 1] == x + y[..|y| - 1];
      CountConcat(l, b, x, y[..|y| - 1]);
    }
  }

  /** The clock readings of the asks made from event `k` on. */
  function AsksSince(es: seq<Event>, k: nat): seq<nat>
    requires k <= |es|
  {
    AsksGrow(es, k);
    AskTimes(es)[|AskTimes(es[..k])|..]
  }

  lemma GrantedSince(l: Limits, b: Level, es: seq<Event>, k: nat)
    requires k <= |es| && Metered(l, b, es)
    ensures Exec(Empty, es).granted - Exec(Empty, es[..k]).granted
      == GrantCount(l, After(l, b, AskTimes(es[..k])), AsksSince(es, k))
  {
    MeteredPrefix(l, b, es, k);
    GrantedIsCounted(l, b, es);
    GrantedIsCounted(l, b, es[..k]);
    AsksGrow(es, k);
    CountConcat(l, b, AskTimes(es[..k]), AsksSince(es, k));
    assert AskTimes(es[..k]) + AsksSince(es, k) == AskTimes(es);
  }

  /** The budget of any window of a metered run: applies in it are at most the
      tokens passes hold when it opens, plus the capacity, plus what flows in
      between the first ask in the window and the last. A window without asks
      gets only what is held. */
  lemma ProviderBudget(l: Limits, start: nat, es: seq<Event>, k: nat)
    requires l.Valid() && k <= |es| && Metered(l, Level(l.capacity, start), es)
    ensures var asks := AsksSince(es, k);
      var applies := ApplyCount(Exec(Empty, es).calls) - ApplyCount(Exec(Empty, es[..k]).calls);
      var held := |Holders(Exec(Empty, es[..k]).passes)|;
      && (asks == [] ==> applies <= held)
      && (asks != [] ==> applies as real <= held as real + l.capacity + TotalInflow(l, asks[0], asks[1..]))
  {
    var b, asks := Level(l.capacity, start), AsksSince(es, k);
    ExecAppend(Empty, es[..k], es[k..]);
    assert es[..k] + es[k..] == es;
    AppliesWithinGrants(Exec(Empty, es[..k]), es[k..]);
    GrantedSince(l, b, es, k);
    if asks != [] {
      GrantsWithinInflow(l, b, AskTimes(es[..k]));
      assert asks == [asks[0]] + asks[1..];
      GrantsInAStretch(l, After(l, b, AskTimes(es[..k])), asks[0], asks[1..]);
    }
  }

  /** In seconds, on a clock that does not step back. */
  lemma ProviderBudgetInSeconds(l: Limits, start: nat, es: seq<Event>, k: nat)
    requires l.Valid() && k <= |es| && Metered(l, Level(l.capacity, start), es)
    requires AsksSince(es, k) != [] && Ordered(AsksSince(es, k)[0], AsksSince(es, k)[1..])
    ensures var asks := AsksSince(es, k);
      var applies := ApplyCount(Exec(Empty, es).calls) - ApplyCount(Exec(Empty, es[..k]).calls);
      asks[0] <= asks[|asks| - 1] &&
      applies as real <= |Holders(Exec(Empty, es[..k]).passes)| as real + l.capacity
        + Inflow(l, asks[0], asks[|asks| - 1])
  {
    var asks := AsksSince(es, k);
    ProviderBudget(l, start, es, k);
    InflowInSeconds(l, asks[0], asks[1..]);
    assert LastTime(asks[0], asks[1..]) == asks[|asks| - 1];
  }
}
