/** Quota admission as a concurrent protocol: requests that list, check and write
    under per-project locks, interleaved with everything else that changes rows. */
module Quota {
  import opened Types
  import opened Outbox
  import CS = ClusterStore

  /** Resource name to amount; a missing name means zero. Amounts are reals. */
  type Resources = map<string, real>

  function Amount(m: Resources, r: string): real {
    if r in m then m[r] else 0.0
  }

  function Add(a: Resources, b: Resources): Resources {
    map r | r in a.Keys + b.Keys :: Amount(a, r) + Amount(b, r)
  }

  predicate FitsWithin(m: Resources, limit: Resources) {
    forall r | r in m :: m[r] <= Amount(limit, r)
  }

  /** The maximum demand of a spec, None when a quantity does not parse. */
  type Demand = ClusterSpec -> Option<Resources>

  /** Quantities are rejected unless finite and non-negative. */
  ghost predicate NonNegative(d: Demand) {
    forall spec, r | d(spec).Some? && r in d(spec).value :: d(spec).value[r] >= 0.0
  }

  predicate Live(c: StoredCluster, project: string) {
    c.spec.project == project && c.desired.WantRunning?
  }

  // --- Demand of one spec ---

  /** Number parsing, as the source's quantity parsers do it before their sign check. */
  datatype Parsers = Parsers(
    cpu: string -> Option<real>, memory: string -> Option<real>, gpu: string -> Option<real>)

  function NonNeg(v: Option<real>): Option<real> {
    if v.Some? && v.value < 0.0 then None else v
  }

  function GpuCount(p: Parsers, s: Option<string>): Option<real> {
    if s.None? || s.value == "" then Some(0.0) else NonNeg(p.gpu(s.value))
  }

  const CPU := "cpu"
  const MEMORY := "memory"
  const GPU := "nvidia.com/gpu"

  function Unit(cpu: Option<real>, memory: Option<real>, gpu: Option<real>): Option<Resources> {
    if cpu.None? || memory.None? || gpu.None? then None
    else
      var base: Resources := map[CPU := cpu.value, MEMORY := memory.value];
      Some(if gpu.value > 0.0 then base[GPU := gpu.value] else base)
  }

  function WorkerUnit(p: Parsers, g: WorkerGroup): Option<Resources> {
    Unit(NonNeg(p.cpu(g.cpu)), NonNeg(p.memory(g.memory)), GpuCount(p, g.gpu))
  }

  function HeadUnit(p: Parsers, spec: ClusterSpec): Option<Resources> {
    Unit(NonNeg(p.cpu(spec.headCpu)), NonNeg(p.memory(spec.headMemory)), Some(0.0))
  }

  function Scale(m: Resources, n: nat): Resources {
    map r | r in m :: m[r] * n as real
  }

  /** The demand of the head and the first `n` worker groups, at one size. */
  function DemandUpTo(p: Parsers, spec: ClusterSpec, n: nat, largest: bool): Option<Resources>
    requires n <= |spec.workerGroups|
  {
    if n == 0 then HeadUnit(p, spec)
    else
      var g, before := spec.workerGroups[n - 1], DemandUpTo(p, spec, n - 1, largest);
      if before.None? || g.minReplicas > g.maxReplicas || WorkerUnit(p, g).None? then None
      else Some(Add(before.value, Scale(WorkerUnit(p, g).value, if largest then g.maxReplicas else g.minReplicas)))
  }

  function MaxDemand(p: Parsers, spec: ClusterSpec): Option<Resources> {
    DemandUpTo(p, spec, |spec.workerGroups|, true)
  }

  /** Both sums in one loop; None when a quantity or a group's bounds are bad. */
  method ClusterDemand(p: Parsers, spec: ClusterSpec) returns (demand: Option<(Resources, Resources)>)
    ensures demand.Some? ==>
      && DemandUpTo(p, spec, |spec.workerGroups|, false) == Some(demand.value.0)
      && MaxDemand(p, spec) == Some(demand.value.1)
    ensures demand.None? ==> MaxDemand(p, spec).None?
  {
    var head := HeadUnit(p, spec);
    if head.None? {
      DemandStaysNone(p, spec, 0, |spec.workerGroups|);
      return None;
    }
    var min, max := head.value, head.value;
    for i := 0 to |spec.workerGroups|
      invariant DemandUpTo(p, spec, i, false) == Some(min)
      invariant DemandUpTo(p, spec, i, true) == Some(max)
    {
      var g := spec.workerGroups[i];
      if g.minReplicas > g.maxReplicas {
        DemandStaysNone(p, spec, i + 1, |spec.workerGroups|);
        return None;
      }
      var unit := WorkerUnit(p, g);
      if unit.None? {
        DemandStaysNone(p, spec, i + 1, |spec.workerGroups|);
        return None;
      }
      min := Add(min, Scale(unit.value, g.minReplicas));
      max := Add(max, Scale(unit.value, g.maxReplicas));
    }
    return Some((min, max));
  }

  lemma {:induction false} DemandStaysNone(p: Parsers, spec: ClusterSpec, i: nat, n: nat)
    requires i <= n <= |spec.workerGroups| && DemandUpTo(p, spec, i, true).None?
    ensures DemandUpTo(p, spec, n, true).None?
  {
    if i < n {
      DemandStaysNone(p, spec, i, n - 1);
    }
  }

  /** Same resources, none negative, each at most the other's. */
  predicate AtMost(a: Resources, b: Resources) {
    a.Keys == b.Keys && forall r | r in a :: 0.0 <= a[r] <= b[r]
  }

  lemma AtMostAdds(a: Resources, b: Resources, x: Resources, y: Resources)
    requires AtMost(a, b) && AtMost(x, y)
    ensures AtMost(Add(a, x), Add(b, y))
  {
    assert Add(a, x).Keys == Add(b, y).Keys;
  }

  lemma AtMostScales(u: Resources, a: nat, b: nat)
    requires AtMost(u, u) && a <= b
    ensures AtMost(Scale(u, a), Scale(u, b))
  {
    var x, y := Scale(u, a), Scale(u, b);
    assert x.Keys == u.Keys && y.Keys == u.Keys;
    forall r | r in x ensures 0.0 <= x[r] <= y[r] {
      assert r in u && x[r] == u[r] * a as real && y[r] == u[r] * b as real;
      ScaledOrder(u[r], a, b);
    }
  }

  /** A cluster's largest size never asks for less than its smallest, and neither
      is negative: a bad spec is refused instead of lowering a project's usage. */
  lemma {:induction false} MinWithinMax(p: Parsers, spec: ClusterSpec, n: nat)
    requires n <= |spec.workerGroups| && DemandUpTo(p, spec, n, true).Some?
    ensures DemandUpTo(p, spec, n, false).Some?
    ensures AtMost(DemandUpTo(p, spec, n, false).value, DemandUpTo(p, spec, n, true).value)
  {
    if n > 0 {
      MinWithinMax(p, spec, n - 1);
      var g := spec.workerGroups[n - 1];
      var unit := WorkerUnit(p, g).value;
      AtMostScales(unit, g.minReplicas, g.maxReplicas);
      AtMostAdds(DemandUpTo(p, spec, n - 1, false).value, DemandUpTo(p, spec, n - 1, true).value,
                 Scale(unit, g.minReplicas), Scale(unit, g.maxReplicas));
    }
  }

  lemma ScaledOrder(x: real, a: nat, b: nat)
    requires 0.0 <= x && a <= b
    ensures 0.0 <= x * a as real <= x * b as real
  {
    assert x * b as real - x * a as real == x * (b - a) as real;
  }

  lemma DemandNonNegative(p: Parsers)
    ensures NonNegative(spec => MaxDemand(p, spec))
  {
    forall spec, r | MaxDemand(p, spec).Some? && r in MaxDemand(p, spec).value
      ensures MaxDemand(p, spec).value[r] >= 0.0
    {
      MinWithinMax(p, spec, |spec.workerGroups|);
    }
  }

  // --- Accounting ---

  /** The loop of the admission section: the summed demand of the project's other
      running clusters, None when one of them does not parse. */
  method SumInUse(rows: seq<StoredCluster>, project: string, id: Id, d: Demand) returns (inUse: Option<Resources>)
    ensures inUse == InUse(rows, project, id, d)
  {
    var acc: Resources := map[];
    for i := 0 to |rows|
      invariant InUse(rows[..i], project, id, d) == Some(acc)
    {
      assert rows[..i + 1][..i] == rows[..i];
      if Live(rows[i], project) && rows[i].id != id {
        var m := d(rows[i].spec);
        if m.None? {
          InUseStaysNone(rows, i + 1, project, id, d);
          return None;
        }
        acc := Add(acc, m.value);
      }
    }
    assert rows[..|rows|] == rows;
    return Some(acc);
  }

  /** One more row added to a running sum. */
  function Plus(u: Option<Resources>, c: StoredCluster, project: string, d: Demand): Option<Resources> {
    if u.None? || !Live(c, project) then u
    else if d(c.spec).None? then None
    else Some(Add(u.value, d(c.spec).value))
  }

  function InUse(rows: seq<StoredCluster>, project: string, id: Id, d: Demand): Option<Resources> {
    if rows == [] then Some(map[])
    else
      var c, before := rows[|rows| - 1], InUse(rows[..|rows| - 1], project, id, d);
      if c.id == id then before else Plus(before, c, project, d)
  }

  lemma {:induction false} InUseStaysNone(rows: seq<StoredCluster>, n: nat, project: string, id: Id, d: Demand)
    requires n <= |rows| && InUse(rows[..n], project, id, d).None?
    ensures InUse(rows, project, id, d).None?
    decreases |rows|
  {
    if n < |rows| {
      assert rows[..|rows| - 1][..n] == rows[..n];
      InUseStaysNone(rows[..|rows| - 1], n, project, id, d);
    } else {
      assert rows[..n] == rows;
    }
  }

  /** What one row takes of a resource in a project. */
  function Share(c: StoredCluster, project: string, r: string, d: Demand): real {
    if Live(c, project) && d(c.spec).Some? then Amount(d(c.spec).value, r) else 0.0
  }

  ghost function Total(m: CS.Clusters, project: string, r: string, d: Demand): real {
    if m == map[] then 0.0
    else
      var id :| id in m;
      Share(m[id], project, r, d) + Total(m - {id}, project, r, d)
  }

  lemma {:induction false} TotalSplits(m: CS.Clusters, id: Id, project: string, r: string, d: Demand)
    requires id in m
    ensures Total(m, project, r, d) == Share(m[id], project, r, d) + Total(m - {id}, project, r, d)
    decreases |m|
  {
    var pick: Id :| pick in m
      && Total(m, project, r, d) == Share(m[pick], project, r, d) + Total(m - {pick}, project, r, d);
    if pick != id {
      TotalSplits(m - {pick}, id, project, r, d);
      TotalSplits(m - {id}, pick, project, r, d);
      assert m - {pick} - {id} == m - {id} - {pick};
    }
  }

  /** Some running cluster of the project names the resource. */
  predicate Demanded(m: CS.Clusters, project: string, r: string, d: Demand) {
    exists id | id in m :: Live(m[id], project) && d(m[id].spec).Some? && r in d(m[id].spec).value
  }

  predicate Parses(m: CS.Clusters, project: string, d: Demand) {
    forall id | id in m && Live(m[id], project) :: d(m[id].spec).Some?
  }

  /** The project's running clusters fit its limit on every resource they name. */
  ghost predicate Within(m: CS.Clusters, project: string, limit: Resources, d: Demand) {
    && Parses(m, project, d)
    && forall r | Demanded(m, project, r, d) :: Total(m, project, r, d) <= Amount(limit, r)
  }

  /** A sum that accounts exactly for a project's running clusters. */
  ghost predicate Accounts(u: Option<Resources>, m: CS.Clusters, project: string, d: Demand) {
    && (u.Some? <==> Parses(m, project, d))
    && (u.Some? ==> forall r ::
          && Amount(u.value, r) == Total(m, project, r, d)
          && (r in u.value <==> Demanded(m, project, r, d)))
  }

  lemma AccountsRow(u: Option<Resources>, m: CS.Clusters, id: Id, project: string, d: Demand)
    requires id in m && Accounts(u, m - {id}, project, d)
    ensures Accounts(Plus(u, m[id], project, d), m, project, d)
  {
    ParsesSplits(m, id, project, d);
    var v := Plus(u, m[id], project, d);
    if v.Some? {
      forall r ensures Amount(v.value, r) == Total(m, project, r, d) && (r in v.value <==> Demanded(m, project, r, d)) {
        TotalSplits(m, id, project, r, d);
        DemandedSplits(m, id, project, r, d);
      }
    }
  }

  /** What the loop adds up is the project's total without the requested id,
      whatever order the rows come in. */
  lemma {:induction false} InUseIsTotal(m: CS.Clusters, rows: seq<StoredCluster>, project: string, id: Id, d: Demand)
    requires ListsAll(m, rows)
    ensures Accounts(InUse(rows, project, id, d), m - {id}, project, d)
    decreases |rows|
  {
    if rows == [] {
      assert m - {id} == map[];
    } else {
      var c, rest := rows[|rows| - 1], rows[..|rows| - 1];
      RestListed(m, rows);
      InUseIsTotal(m - {c.id}, rest, project, id, d);
      if c.id == id {
        assert m - {c.id} - {id} == m - {id};
      } else {
        assert m - {c.id} - {id} == m - {id} - {c.id};
        AccountsRow(InUse(rest, project, id, d), m - {id}, c.id, project, d);
      }
    }
  }

  lemma RestListed(m: CS.Clusters, rows: seq<StoredCluster>)
    requires ListsAll(m, rows) && rows != []
    ensures ListsAll(m - {rows[|rows| - 1].id}, rows[..|rows| - 1])
  {
    var rest := rows[..|rows| - 1];
    forall id | id in m && id != rows[|rows| - 1].id ensures m[id] in rest {
      var i :| 0 <= i < |rows| && rows[i] == m[id];
      assert rest[i] == m[id];
    }
  }

  lemma ParsesSplits(m: CS.Clusters, id: Id, project: string, d: Demand)
    requires id in m
    ensures Parses(m, project, d) <==> (Live(m[id], project) ==> d(m[id].spec).Some?) && Parses(m - {id}, project, d)
  {
    if Parses(m - {id}, project, d) {
      forall x | x in m && x != id && Live(m[x], project) ensures d(m[x].spec).Some? {
        assert x in m - {id};
      }
    }
  }

  lemma DemandedSplits(m: CS.Clusters, id: Id, project: string, r: string, d: Demand)
    requires id in m
    ensures Demanded(m, project, r, d)
      <==> ((Live(m[id], project) && d(m[id].spec).Some? && r in d(m[id].spec).value)
            || Demanded(m - {id}, project, r, d))
  {
    if Demanded(m, project, r, d) {
      var x :| x in m && Live(m[x], project) && d(m[x].spec).Some? && r in d(m[x].spec).value;
      assert x == id || x in m - {id};
    }
    if Demanded(m - {id}, project, r, d) {
      var x :| x in m - {id} && Live(m[x], project) && d(m[x].spec).Some? && r in d(m[x].spec).value;
      assert x in m;
    }
  }
}
