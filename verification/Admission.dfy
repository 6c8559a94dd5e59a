/** Cluster creation as a protocol between concurrent requests: per-project locks
    around list, check and write, interleaved with everything else that changes
    rows. Whatever the interleaving, no limited project is over-committed. */
module Admission {
  import opened Types
  import opened Outbox
  import opened Quota
  import CS = ClusterStore

  type Limits = map<string, Resources>

  datatype Pc = Arrived | Holding | Listed(inUse: Resources) | Admitted(inUse: Resources) | Committed

  datatype Request = Request(id: Id, spec: ClusterSpec, pc: Pc)

  /** `holder` is the request that owns each locked project's mutex. */
  datatype Desk = Desk(clusters: CS.Clusters, holder: map<string, nat>, requests: map<nat, Request>)

  /** `Leave` drops the request and its guard: an error return, a cancelled
      request or the end of the handler. `Touch` is any row write that keeps
      spec and desired state; `Flip` is a suspend, resume or delete. */
  datatype Event =
    | Arrive(n: nat, id: Id, spec: ClusterSpec)
    | Lock(n: nat)
    | ListUsage(n: nat, order: seq<StoredCluster>)
    | Check(n: nat)
    | Commit(n: nat, now: nat)
    | Leave(n: nat)
    | Flip(id: Id, desired: DesiredState, now: nat)
    | Touch(id: Id, row: StoredCluster)
    | Purge(id: Id)

  // --- The machine ---

  function Gone(s: Desk, n: nat): Desk
    requires n in s.requests
  {
    var project := s.requests[n].spec.project;
    s.(requests := s.requests - {n},
       holder := if project in s.holder && s.holder[project] == n then s.holder - {project} else s.holder)
  }

  function Moved(s: Desk, n: nat, pc: Pc): Desk
    requires n in s.requests
  {
    s.(requests := s.requests[n := s.requests[n].(pc := pc)])
  }

  predicate Enabled(s: Desk, e: Event, limits: Limits) {
    match e
    case Arrive(n, id, spec) => n !in s.requests
    case Lock(n) =>
      n in s.requests && s.requests[n].pc.Arrived? && s.requests[n].spec.project in limits
      && s.requests[n].spec.project !in s.holder
    case ListUsage(n, order) => n in s.requests && s.requests[n].pc.Holding? && ListsAll(s.clusters, order)
    case Check(n) => n in s.requests && s.requests[n].pc.Listed?
    case Commit(n, now) =>
      n in s.requests
      && (s.requests[n].pc.Admitted? || (s.requests[n].pc.Arrived? && s.requests[n].spec.project !in limits))
    case Leave(n) => n in s.requests
    case Flip(id, desired, now) => true
    case Touch(id, row) =>
      id in s.clusters && row.id == s.clusters[id].id && row.spec == s.clusters[id].spec
      && row.desired == s.clusters[id].desired
    case Purge(id) => true
  }

  function Next(s: Desk, e: Event, limits: Limits, d: Demand): Desk
    requires Enabled(s, e, limits)
  {
    match e
    case Arrive(n, id, spec) => s.(requests := s.requests[n := Request(id, spec, Arrived)])
    case Lock(n) => Moved(s, n, Holding).(holder := s.holder[s.requests[n].spec.project := n])
    case ListUsage(n, order) =>
      var q := s.requests[n];
      var inUse := InUse(order, q.spec.project, q.id, d);
      if d(q.spec).None? || inUse.None? then Gone(s, n) else Moved(s, n, Listed(inUse.value))
    case Check(n) =>
      var q := s.requests[n];
      if Fits(q, q.pc.inUse, limits, d) then Moved(s, n, Admitted(q.pc.inUse)) else Gone(s, n)
    case Commit(n, now) =>
      Moved(s, n, Committed).(clusters := CS.Upsert(s.clusters, s.requests[n].id, s.requests[n].spec, now))
    case Leave(n) => Gone(s, n)
    case Flip(id, desired, now) => s.(clusters := CS.SetDesired(s.clusters, id, desired, now))
    case Touch(id, row) => s.(clusters := s.clusters[id := row])
    case Purge(id) => s.(clusters := CS.Remove(s.clusters, id))
  }

  /** The admission check: in-use plus requested fits the limit. */
  predicate Fits(q: Request, inUse: Resources, limits: Limits, d: Demand) {
    && q.spec.project in limits
    && d(q.spec).Some?
    && FitsWithin(Add(inUse, d(q.spec).value), limits[q.spec.project])
  }

  function Do(s: Desk, e: Event, limits: Limits, d: Demand): Desk {
    if Enabled(s, e, limits) then Next(s, e, limits, d) else s
  }

  function Exec(s: Desk, es: seq<Event>, limits: Limits, d: Demand): Desk {
    if es == [] then s else Do(Exec(s, es[..|es| - 1], limits, d), es[|es| - 1], limits, d)
  }

  // --- The invariant ---

  /** A request past the lock of a limited project owns that lock. */
  predicate Locks(s: Desk, limits: Limits) {
    forall n | n in s.requests && !s.requests[n].pc.Arrived? && s.requests[n].spec.project in limits ::
      s.requests[n].spec.project in s.holder && s.holder[s.requests[n].spec.project] == n
  }

  /** Between its list and its write, where what it goes by can grow old. */
  predicate InFlight(q: Request) {
    q.pc.Listed? || q.pc.Admitted?
  }

  /** Every step keeps this, whatever the rows do: locks exclude, and a request is
      where its handler can be. */
  predicate Orderly(s: Desk, limits: Limits, d: Demand) {
    && Locks(s, limits)
    && forall n | n in s.requests :: InPlace(s.requests[n], limits, d)
  }

  predicate InPlace(q: Request, limits: Limits, d: Demand) {
    && (q.pc.Holding? || InFlight(q) ==> q.spec.project in limits)
    && (q.pc.Admitted? ==> Fits(q, q.pc.inUse, limits, d))
  }

  /** The project fits its limit once the request's row runs among the others. */
  ghost predicate WouldFit(q: Request, m: CS.Clusters, limits: Limits, d: Demand) {
    q.spec.project in limits
    && Within(CS.Upsert(m - {q.id}, q.id, q.spec, 0), q.spec.project, limits[q.spec.project], d)
  }

  /** A request that passes the check, by what it listed, also fits by the rows there are. */
  ghost predicate Working(q: Request, m: CS.Clusters, limits: Limits, d: Demand) {
    InFlight(q) && Fits(q, q.pc.inUse, limits, d) ==> WouldFit(q, m, limits, d)
  }

  ghost predicate AllWithin(m: CS.Clusters, limits: Limits, d: Demand) {
    forall project | project in limits :: Within(m, project, limits[project], d)
  }

  ghost predicate Inv(s: Desk, limits: Limits, d: Demand) {
    && Orderly(s, limits, d)
    && (forall n | n in s.requests :: Working(s.requests[n], s.clusters, limits, d))
    && AllWithin(s.clusters, limits, d)
  }

  /** One row changed, and in this project only downwards. */
  predicate Lowered(m: CS.Clusters, m': CS.Clusters, x: Id, project: string) {
    && m' - {x} == m - {x}
    && (x in m' && Live(m'[x], project) ==>
          x in m && m[x].spec == m'[x].spec && m[x].desired == m'[x].desired)
  }

  lemma TotalLowered(m: CS.Clusters, m': CS.Clusters, x: Id, project: string, r: string, d: Demand)
    requires NonNegative(d) && Lowered(m, m', x, project)
    ensures Total(m', project, r, d) <= Total(m, project, r, d)
    ensures Demanded(m', project, r, d) ==> Demanded(m, project, r, d)
  {
    if x in m {
      TotalSplits(m, x, project, r, d);
      DemandedSplits(m, x, project, r, d);
    } else {
      assert m - {x} == m;
    }
    if x in m' {
      TotalSplits(m', x, project, r, d);
      DemandedSplits(m', x, project, r, d);
    } else {
      assert m' - {x} == m';
    }
  }

  lemma ParsesLowered(m: CS.Clusters, m': CS.Clusters, x: Id, project: string, d: Demand)
    requires Lowered(m, m', x, project) && Parses(m, project, d)
    ensures Parses(m', project, d)
  {
    forall id | id in m' && Live(m'[id], project) ensures d(m'[id].spec).Some? {
      if id != x {
        assert id in m' - {x} && id in m - {x} && (m' - {x})[id] == (m - {x})[id];
      }
    }
  }

  lemma WithinLowered(m: CS.Clusters, m': CS.Clusters, x: Id, project: string, limit: Resources, d: Demand)
    requires NonNegative(d) && Lowered(m, m', x, project) && Within(m, project, limit, d)
    ensures Within(m', project, limit, d)
  {
    ParsesLowered(m, m', x, project, d);
    forall r | Demanded(m', project, r, d) ensures Total(m', project, r, d) <= Amount(limit, r) {
      TotalLowered(m, m', x, project, r, d);
    }
  }

  lemma WorkingLowered(q: Request, m: CS.Clusters, m': CS.Clusters, x: Id, limits: Limits, d: Demand)
    requires NonNegative(d) && Lowered(m, m', x, q.spec.project) && Working(q, m, limits, d)
    ensures Working(q, m', limits, d)
  {
    var u, u' := CS.Upsert(m - {q.id}, q.id, q.spec, 0), CS.Upsert(m' - {q.id}, q.id, q.spec, 0);
    if x == q.id {
      assert u == u';
    } else if WouldFit(q, m, limits, d) {
      assert m' - {q.id} - {x} == m' - {x} - {q.id} && m - {q.id} - {x} == m - {x} - {q.id};
      assert u' - {x} == (m' - {q.id} - {x})[q.id := u'[q.id]] && u - {x} == (m - {q.id} - {x})[q.id := u[q.id]];
      WithinLowered(u, u', x, q.spec.project, limits[q.spec.project], d);
    }
  }

  // --- Every step keeps it ---

  /** The check a handler makes is exact: on the rows it has just listed, it passes
      if and only if the project fits with that row running. */
  lemma CheckIsExact(m: CS.Clusters, order: seq<StoredCluster>, m': CS.Clusters, id: Id, limit: Resources, d: Demand)
    requires ListsAll(m, order) && m' - {id} == m - {id} && id in m' && m'[id].desired.WantRunning?
    ensures
      var spec := m'[id].spec;
      var u := InUse(order, spec.project, id, d);
      Within(m', spec.project, limit, d)
      <==> u.Some? && d(spec).Some? && FitsWithin(Add(u.value, d(spec).value), limit)
  {
    var spec := m'[id].spec;
    var project, u := spec.project, InUse(order, spec.project, id, d);
    InUseIsTotal(m, order, project, id, d);
    ParsesSplits(m', id, project, d);
    if u.Some? && d(spec).Some? {
      var sum := Add(u.value, d(spec).value);
      forall r
        ensures Total(m', project, r, d) == Amount(sum, r)
        ensures Demanded(m', project, r, d) <==> r in sum
      {
        TotalSplits(m', id, project, r, d);
        DemandedSplits(m', id, project, r, d);
      }
      forall r | r in sum ensures sum[r] == Amount(sum, r) && Demanded(m', project, r, d) {
      }
    }
  }

  /** The write of an admitted request fits, whatever row it meets under its id. */
  lemma CommitWithin(q: Request, m: CS.Clusters, now: nat, limits: Limits, d: Demand)
    requires NonNegative(d) && q.pc.Admitted? && Fits(q, q.pc.inUse, limits, d) && Working(q, m, limits, d)
    ensures Within(CS.Upsert(m, q.id, q.spec, now), q.spec.project, limits[q.spec.project], d)
  {
    var u, m' := CS.Upsert(m - {q.id}, q.id, q.spec, 0), CS.Upsert(m, q.id, q.spec, now);
    assert m' - {q.id} == m - {q.id} == u - {q.id};
    WithinLowered(u, m', q.id, q.spec.project, limits[q.spec.project], d);
  }

  lemma RowChangeKeeps(s: Desk, m': CS.Clusters, x: Id, limits: Limits, d: Demand)
    requires NonNegative(d) && Inv(s, limits, d)
    requires forall project | project in limits :: Lowered(s.clusters, m', x, project)
    ensures Inv(s.(clusters := m'), limits, d)
  {
    forall n | n in s.requests ensures Working(s.requests[n], m', limits, d) {
      if s.requests[n].spec.project in limits {
        WorkingLowered(s.requests[n], s.clusters, m', x, limits, d);
      }
    }
    forall project | project in limits ensures Within(m', project, limits[project], d) {
      WithinLowered(s.clusters, m', x, project, limits[project], d);
    }
  }

  /** The lock keeps everybody else of the project in front of its list. */
  lemma OthersKeepWorking(s: Desk, n: nat, m': CS.Clusters, k: nat, limits: Limits, d: Demand)
    requires NonNegative(d) && Inv(s, limits, d) && n in s.requests && s.requests[n].pc.Admitted?
    requires k in s.requests && k != n
    requires var q := s.requests[n];
      forall project | project != q.spec.project :: Lowered(s.clusters, m', q.id, project)
    ensures Working(s.requests[k], m', limits, d)
  {
    assert InPlace(s.requests[n], limits, d) && Working(s.requests[k], s.clusters, limits, d);
    if s.requests[k].spec.project != s.requests[n].spec.project {
      WorkingLowered(s.requests[k], s.clusters, m', s.requests[n].id, limits, d);
    } else {
      assert s.requests[k].pc.Arrived?;
    }
  }

  lemma CommitKeeps(s: Desk, n: nat, now: nat, limits: Limits, d: Demand)
    requires NonNegative(d) && Inv(s, limits, d) && Enabled(s, Commit(n, now), limits)
    ensures Inv(Next(s, Commit(n, now), limits, d), limits, d)
  {
    var q := s.requests[n];
    var m' := CS.Upsert(s.clusters, q.id, q.spec, now);
    assert m' - {q.id} == s.clusters - {q.id};
    assert forall project | project != q.spec.project :: Lowered(s.clusters, m', q.id, project);
    if q.pc.Arrived? {
      RowChangeKeeps(s, m', q.id, limits, d);
    } else {
      CommitWithin(q, s.clusters, now, limits, d);
      forall project | project in limits ensures Within(m', project, limits[project], d) {
        if project != q.spec.project {
          WithinLowered(s.clusters, m', q.id, project, limits[project], d);
        }
      }
      forall k | k in s.requests && k != n ensures Working(s.requests[k], m', limits, d) {
        OthersKeepWorking(s, n, m', k, limits, d);
      }
    }
  }

  lemma ListKeeps(s: Desk, n: nat, order: seq<StoredCluster>, limits: Limits, d: Demand)
    requires Inv(s, limits, d) && Enabled(s, ListUsage(n, order), limits)
    ensures Inv(Next(s, ListUsage(n, order), limits, d), limits, d)
  {
    var q := s.requests[n];
    var u := CS.Upsert(s.clusters - {q.id}, q.id, q.spec, 0);
    assert u - {q.id} == s.clusters - {q.id};
    CheckIsExact(s.clusters, order, u, q.id, limits[q.spec.project], d);
  }

  /** The one step that can raise a project's usage without the lock. */
  predicate Resumes(e: Event) {
    e.Flip? && e.desired.WantRunning?
  }

  lemma OrderlyStep(s: Desk, e: Event, limits: Limits, d: Demand)
    requires Orderly(s, limits, d)
    ensures Orderly(Do(s, e, limits, d), limits, d)
  {
    var s' := Do(s, e, limits, d);
    forall n | n in s'.requests ensures InPlace(s'.requests[n], limits, d) {
      assert n in s.requests && s'.requests[n] == s.requests[n] ==> InPlace(s.requests[n], limits, d);
    }
  }

  /** Steps of a request that write no row. */
  lemma HandlerStepKeeps(s: Desk, e: Event, limits: Limits, d: Demand)
    requires Inv(s, limits, d) && Enabled(s, e, limits) && (e.Arrive? || e.Lock? || e.Check? || e.Leave?)
    ensures Inv(Next(s, e, limits, d), limits, d)
  {
    OrderlyStep(s, e, limits, d);
    var s' := Next(s, e, limits, d);
    forall n | n in s'.requests ensures Working(s'.requests[n], s.clusters, limits, d) {
      assert e.n != n ==> s'.requests[n] == s.requests[n] && Working(s.requests[n], s.clusters, limits, d);
    }
  }

  lemma NextKeepsInv(s: Desk, e: Event, limits: Limits, d: Demand)
    requires NonNegative(d) && Inv(s, limits, d) && Enabled(s, e, limits) && !Resumes(e)
    ensures Inv(Next(s, e, limits, d), limits, d)
  {
    match e
    case Commit(n, now) => CommitKeeps(s, n, now, limits, d);
    case ListUsage(n, order) => ListKeeps(s, n, order, limits, d);
    case Flip(id, desired, now) => RowChangeKeeps(s, CS.SetDesired(s.clusters, id, desired, now), id, limits, d);
    case Touch(id, row) => RowChangeKeeps(s, s.clusters[id := row], id, limits, d);
    case Purge(id) => RowChangeKeeps(s, CS.Remove(s.clusters, id), id, limits, d);
    case _ => HandlerStepKeeps(s, e, limits, d);
  }

  predicate ResumeFree(es: seq<Event>) {
    forall i | 0 <= i < |es| :: !Resumes(es[i])
  }

  lemma {:induction false} RunKeepsInv(s: Desk, es: seq<Event>, limits: Limits, d: Demand)
    requires NonNegative(d) && Inv(s, limits, d) && ResumeFree(es)
    ensures Inv(Exec(s, es, limits, d), limits, d)
  {
    if es != [] {
      RunKeepsInv(s, es[..|es| - 1], limits, d);
      var before, e := Exec(s, es[..|es| - 1], limits, d), es[|es| - 1];
      if Enabled(before, e, limits) {
        NextKeepsInv(before, e, limits, d);
      }
    }
  }

  /** No interleaving of creations, suspends, deletes, purges and status writes
      over-commits a limited project. */
  lemma {:induction false} NoOverCommit(s: Desk, es: seq<Event>, limits: Limits, d: Demand)
    requires NonNegative(d) && s.requests == map[] && AllWithin(s.clusters, limits, d)
    requires ResumeFree(es)
    ensures Inv(Exec(s, es, limits, d), limits, d)
    ensures AllWithin(Exec(s, es, limits, d).clusters, limits, d)
  {
    RunKeepsInv(s, es, limits, d);
  }

  // --- Nobody is turned away or kept waiting for nothing ---

  /** From behind the lock, list and check admit a request if and only if its project
      fits with its row running among the others there are. */
  lemma AdmittedIff(s: Desk, n: nat, order: seq<StoredCluster>, limits: Limits, d: Demand)
    requires Orderly(s, limits, d) && Enabled(s, ListUsage(n, order), limits)
    ensures
      var s' := Exec(s, [ListUsage(n, order), Check(n)], limits, d);
      n in s'.requests && s'.requests[n].pc.Admitted? <==> WouldFit(s.requests[n], s.clusters, limits, d)
  {
    var es, q := [ListUsage(n, order), Check(n)], s.requests[n];
    assert InPlace(q, limits, d);
    assert es[..1] == [es[0]] && es[..1][..0] == [];
    assert Exec(s, es[..1], limits, d) == Do(Exec(s, es[..1][..0], limits, d), es[0], limits, d);
    var u := CS.Upsert(s.clusters - {q.id}, q.id, q.spec, 0);
    assert u - {q.id} == s.clusters - {q.id};
    CheckIsExact(s.clusters, order, u, q.id, limits[q.spec.project], d);
  }

  /** A held lock has its holder at the desk, past the lock. */
  predicate HeldBy(s: Desk, project: string) {
    project in s.holder ==>
      && s.holder[project] in s.requests
      && s.requests[s.holder[project]].spec.project == project && !s.requests[s.holder[project]].pc.Arrived?
  }

  lemma GoneKeepsHeld(s: Desk, n: nat, project: string)
    requires HeldBy(s, project) && n in s.requests
    ensures HeldBy(Gone(s, n), project)
  {}

  lemma MovedKeepsHeld(s: Desk, n: nat, pc: Pc, project: string)
    requires HeldBy(s, project) && n in s.requests && !pc.Arrived?
    ensures HeldBy(Moved(s, n, pc), project)
  {}

  lemma HeldStep(s: Desk, e: Event, limits: Limits, d: Demand, project: string)
    requires HeldBy(s, project) && Enabled(s, e, limits)
    ensures HeldBy(Next(s, e, limits, d), project)
  {
    match e
    case ListUsage(n, order) =>
      GoneKeepsHeld(s, n, project);
      var q := s.requests[n];
      var inUse := InUse(order, q.spec.project, q.id, d);
      if inUse.Some? {
        MovedKeepsHeld(s, n, Listed(inUse.value), project);
      }
    case Check(n) =>
      GoneKeepsHeld(s, n, project);
      MovedKeepsHeld(s, n, Admitted(s.requests[n].pc.inUse), project);
    case Leave(n) => GoneKeepsHeld(s, n, project);
    case _ =>
  }

  lemma {:induction false} RunKeepsHeld(s: Desk, es: seq<Event>, limits: Limits, d: Demand, project: string)
    requires HeldBy(s, project) && Orderly(s, limits, d)
    ensures HeldBy(Exec(s, es, limits, d), project) && Orderly(Exec(s, es, limits, d), limits, d)
  {
    if es != [] {
      var before, e := Exec(s, es[..|es| - 1], limits, d), es[|es| - 1];
      RunKeepsHeld(s, es[..|es| - 1], limits, d, project);
      OrderlyStep(before, e, limits, d);
      if Enabled(before, e, limits) {
        HeldStep(before, e, limits, d, project);
      }
    }
  }

  /** No lock is lost: over every run from an empty desk, whoever waits in front of a
      limited project's lock can take it exactly when no request of the project
      is past it. */
  lemma LockFreeIff(s: Desk, es: seq<Event>, n: nat, limits: Limits, d: Demand)
    requires s.requests == map[] && s.holder == map[]
    requires var s' := Exec(s, es, limits, d);
      n in s'.requests && s'.requests[n].pc.Arrived? && s'.requests[n].spec.project in limits
    ensures var s' := Exec(s, es, limits, d);
      Enabled(s', Lock(n), limits)
      <==> forall k | k in s'.requests && s'.requests[k].spec.project == s'.requests[n].spec.project ::
             s'.requests[k].pc.Arrived?
  {
    RunKeepsHeld(s, es, limits, d, Exec(s, es, limits, d).requests[n].spec.project);
  }
}
