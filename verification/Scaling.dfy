/** What a demand means for clusters that scale: the two sums bracket every size a
    spec allows and are reached, so a project admitted at its clusters' largest
    sizes stays within its limit however they scale. */
module Scaling {
  import opened Types
  import opened Quota
  import opened Admission
  import Outbox
  import CS = ClusterStore

  // --- One cluster at one size ---

  /** How many workers each group runs. */
  type Sizes = seq<nat>

  predicate Allowed(spec: ClusterSpec, sizes: Sizes) {
    && |sizes| == |spec.workerGroups|
    && forall i | 0 <= i < |sizes| :: spec.workerGroups[i].minReplicas <= sizes[i] <= spec.workerGroups[i].maxReplicas
  }

  function Smallest(spec: ClusterSpec): Sizes {
    seq(|spec.workerGroups|, i requires 0 <= i < |spec.workerGroups| => spec.workerGroups[i].minReplicas)
  }

  function Largest(spec: ClusterSpec): Sizes {
    seq(|spec.workerGroups|, i requires 0 <= i < |spec.workerGroups| => spec.workerGroups[i].maxReplicas)
  }

  predicate Readable(v: Option<real>) {
    v.Some? && v.value >= 0.0
  }

  predicate AsksGpu(g: WorkerGroup) {
    g.gpu.Some? && g.gpu.value != ""
  }

  predicate GroupReads(p: Parsers, g: WorkerGroup) {
    && g.minReplicas <= g.maxReplicas
    && Readable(p.cpu(g.cpu)) && Readable(p.memory(g.memory))
    && (AsksGpu(g) ==> Readable(p.gpu(g.gpu.value)))
  }

  /** Every quantity reads as a number that is not negative, and no group has more
      workers at least than at most. */
  predicate WellFormed(p: Parsers, spec: ClusterSpec) {
    && Readable(p.cpu(spec.headCpu)) && Readable(p.memory(spec.headMemory))
    && forall i | 0 <= i < |spec.workerGroups| :: GroupReads(p, spec.workerGroups[i])
  }

  function Number(v: Option<real>): real {
    if v.Some? then v.value else 0.0
  }

  function Gpus(p: Parsers, g: WorkerGroup): real {
    if AsksGpu(g) then Number(p.gpu(g.gpu.value)) else 0.0
  }

  /** What the head takes of a resource. */
  function HeadTakes(p: Parsers, spec: ClusterSpec, r: string): real {
    if r == "cpu" then Number(p.cpu(spec.headCpu))
    else if r == "memory" then Number(p.memory(spec.headMemory))
    else 0.0
  }

  /** What one worker of the group takes of it. */
  function WorkerTakes(p: Parsers, g: WorkerGroup, r: string): real {
    if r == "cpu" then Number(p.cpu(g.cpu))
    else if r == "memory" then Number(p.memory(g.memory))
    else if r == "nvidia.com/gpu" then Gpus(p, g)
    else 0.0
  }

  /** `n` workers' share of what one of them takes. */
  function Times(n: nat, x: real): real {
    x * n as real
  }

  /** What the head and the first `n` groups take at these sizes. */
  function TakesUpTo(p: Parsers, spec: ClusterSpec, sizes: Sizes, n: nat, r: string): real
    requires n <= |spec.workerGroups| == |sizes|
  {
    if n == 0 then HeadTakes(p, spec, r)
    else TakesUpTo(p, spec, sizes, n - 1, r) + Times(sizes[n - 1], WorkerTakes(p, spec.workerGroups[n - 1], r))
  }

  function Takes(p: Parsers, spec: ClusterSpec, sizes: Sizes, r: string): real {
    if |sizes| == |spec.workerGroups| then TakesUpTo(p, spec, sizes, |sizes|, r) else 0.0
  }

  // --- The demand in those terms ---

  lemma HeadAmount(p: Parsers, spec: ClusterSpec, r: string)
    ensures HeadUnit(p, spec).Some? <==> Readable(p.cpu(spec.headCpu)) && Readable(p.memory(spec.headMemory))
    ensures HeadUnit(p, spec).Some? ==>
      && Amount(HeadUnit(p, spec).value, r) == HeadTakes(p, spec, r)
      && (r in HeadUnit(p, spec).value <==> r == "cpu" || r == "memory")
  {}

  lemma WorkerAmount(p: Parsers, g: WorkerGroup, r: string)
    requires g.minReplicas <= g.maxReplicas
    ensures WorkerUnit(p, g).Some? <==> GroupReads(p, g)
    ensures WorkerUnit(p, g).Some? ==>
      && Amount(WorkerUnit(p, g).value, r) == WorkerTakes(p, g, r) >= 0.0
      && (r in WorkerUnit(p, g).value <==> r == "cpu" || r == "memory" || (r == "nvidia.com/gpu" && Gpus(p, g) > 0.0))
  {}

  predicate ReadsUpTo(p: Parsers, spec: ClusterSpec, n: nat)
    requires n <= |spec.workerGroups|
  {
    && Readable(p.cpu(spec.headCpu)) && Readable(p.memory(spec.headMemory))
    && forall i | 0 <= i < n :: GroupReads(p, spec.workerGroups[i])
  }

  lemma ReadsSplits(p: Parsers, spec: ClusterSpec, n: nat)
    requires 0 < n <= |spec.workerGroups|
    ensures ReadsUpTo(p, spec, n) <==> ReadsUpTo(p, spec, n - 1) && GroupReads(p, spec.workerGroups[n - 1])
  {}

  lemma DemandAnswers(p: Parsers, spec: ClusterSpec, n: nat, largest: bool)
    requires 0 < n <= |spec.workerGroups|
    ensures DemandUpTo(p, spec, n, largest).Some?
      <==> DemandUpTo(p, spec, n - 1, largest).Some? && GroupReads(p, spec.workerGroups[n - 1])
  {
    var g := spec.workerGroups[n - 1];
    if g.minReplicas <= g.maxReplicas {
      WorkerAmount(p, g, "cpu");
    }
  }

  /** A demand is refused exactly for a spec that is not well formed. */
  lemma {:induction false} DemandReads(p: Parsers, spec: ClusterSpec, n: nat, largest: bool)
    requires n <= |spec.workerGroups|
    ensures DemandUpTo(p, spec, n, largest).Some? <==> ReadsUpTo(p, spec, n)
  {
    if n == 0 {
      HeadAmount(p, spec, "cpu");
    } else {
      DemandReads(p, spec, n - 1, largest);
      DemandAnswers(p, spec, n, largest);
      ReadsSplits(p, spec, n);
    }
  }

  lemma AddedScaled(before: Resources, unit: Resources, k: nat, r: string)
    ensures Amount(Add(before, Scale(unit, k)), r) == Amount(before, r) + Times(k, Amount(unit, r))
  {}

  lemma DemandParts(p: Parsers, spec: ClusterSpec, n: nat, largest: bool)
    returns (before: Resources, unit: Resources, k: nat)
    requires 0 < n <= |spec.workerGroups| && DemandUpTo(p, spec, n, largest).Some?
    ensures DemandUpTo(p, spec, n - 1, largest) == Some(before) && WorkerUnit(p, spec.workerGroups[n - 1]) == Some(unit)
    ensures spec.workerGroups[n - 1].minReplicas <= spec.workerGroups[n - 1].maxReplicas
    ensures k == if largest then spec.workerGroups[n - 1].maxReplicas else spec.workerGroups[n - 1].minReplicas
    ensures DemandUpTo(p, spec, n, largest) == Some(Add(before, Scale(unit, k)))
  {
    var g := spec.workerGroups[n - 1];
    before, unit := DemandUpTo(p, spec, n - 1, largest).value, WorkerUnit(p, g).value;
    k := if largest then g.maxReplicas else g.minReplicas;
  }

  /** The two sums are what the cluster takes at its smallest and its largest. */
  lemma {:induction false} DemandTakes(p: Parsers, spec: ClusterSpec, sizes: Sizes, n: nat, largest: bool, r: string)
    requires n <= |spec.workerGroups| && DemandUpTo(p, spec, n, largest).Some?
    requires sizes == if largest then Largest(spec) else Smallest(spec)
    ensures Amount(DemandUpTo(p, spec, n, largest).value, r) == TakesUpTo(p, spec, sizes, n, r)
  {
    if n == 0 {
      HeadAmount(p, spec, r);
    } else {
      var before, unit, k := DemandParts(p, spec, n, largest);
      DemandTakes(p, spec, sizes, n - 1, largest, r);
      WorkerAmount(p, spec.workerGroups[n - 1], r);
      AddedScaled(before, unit, k, r);
    }
  }

  lemma TimesGrow(x: real, a: nat, b: nat)
    requires 0.0 <= x && a <= b
    ensures Times(a, x) <= Times(b, x)
  {
    ScaledOrder(x, a, b);
  }

  lemma {:induction false} TakesGrow(p: Parsers, spec: ClusterSpec, a: Sizes, b: Sizes, n: nat, r: string)
    requires WellFormed(p, spec) && n <= |spec.workerGroups| == |a| == |b|
    requires forall i | 0 <= i < |a| :: a[i] <= b[i]
    ensures TakesUpTo(p, spec, a, n, r) <= TakesUpTo(p, spec, b, n, r)
  {
    if n > 0 {
      TakesGrow(p, spec, a, b, n - 1, r);
      var g := spec.workerGroups[n - 1];
      assert GroupReads(p, g);
      WorkerAmount(p, g, r);
      TimesGrow(WorkerTakes(p, g, r), a[n - 1], b[n - 1]);
    }
  }

  /** Both demands are answered or neither, exactly for well-formed specs; every
      size the spec allows takes, of each resource, at least the first and at most
      the second, and the ends are reached. */
  lemma DemandBrackets(p: Parsers, spec: ClusterSpec, sizes: Sizes, r: string)
    ensures
      var n := |spec.workerGroups|;
      var min, max := DemandUpTo(p, spec, n, false), MaxDemand(p, spec);
      && (min.Some? <==> WellFormed(p, spec)) && (max.Some? <==> WellFormed(p, spec))
      && (WellFormed(p, spec) ==>
            && Amount(min.value, r) == Takes(p, spec, Smallest(spec), r)
            && Amount(max.value, r) == Takes(p, spec, Largest(spec), r)
            && (Allowed(spec, sizes) ==>
                  Amount(min.value, r) <= Takes(p, spec, sizes, r) <= Amount(max.value, r)))
  {
    var n := |spec.workerGroups|;
    DemandReads(p, spec, n, false);
    DemandReads(p, spec, n, true);
    if WellFormed(p, spec) {
      DemandTakes(p, spec, Smallest(spec), n, false, r);
      DemandTakes(p, spec, Largest(spec), n, true, r);
      if Allowed(spec, sizes) {
        TakesGrow(p, spec, Smallest(spec), sizes, n, r);
        TakesGrow(p, spec, sizes, Largest(spec), n, r);
      }
    }
  }

  /** Some group's workers ask for GPUs. */
  predicate NamesGpu(p: Parsers, spec: ClusterSpec, n: nat)
    requires n <= |spec.workerGroups|
  {
    exists i | 0 <= i < n :: Gpus(p, spec.workerGroups[i]) > 0.0
  }

  /** A demand names CPU and memory, and GPUs exactly when a group asks for some. */
  lemma {:induction false} DemandNames(p: Parsers, spec: ClusterSpec, n: nat, largest: bool, r: string)
    requires n <= |spec.workerGroups| && DemandUpTo(p, spec, n, largest).Some?
    ensures r in DemandUpTo(p, spec, n, largest).value
      <==> r == "cpu" || r == "memory" || (r == "nvidia.com/gpu" && NamesGpu(p, spec, n))
  {
    if n == 0 {
      HeadAmount(p, spec, r);
    } else {
      DemandNames(p, spec, n - 1, largest, r);
      WorkerAmount(p, spec.workerGroups[n - 1], r);
      if NamesGpu(p, spec, n - 1) {
        var i :| 0 <= i < n - 1 && Gpus(p, spec.workerGroups[i]) > 0.0;
        assert Gpus(p, spec.workerGroups[i]) > 0.0;
      }
    }
  }

  // --- A project's clusters ---

  predicate Runs(c: StoredCluster, project: string) {
    c.spec.project == project && c.desired == WantRunning
  }

  /** What the project's running clusters take of a resource, each at its own size. */
  ghost function Usage(m: CS.Clusters, project: string, p: Parsers, sizes: Id -> Sizes, r: string): real {
    if m == map[] then 0.0
    else
      var id :| id in m;
      (if Runs(m[id], project) then Takes(p, m[id].spec, sizes(id), r) else 0.0)
      + Usage(m - {id}, project, p, sizes, r)
  }

  ghost predicate AllAllowed(m: CS.Clusters, project: string, sizes: Id -> Sizes) {
    forall id | id in m && Runs(m[id], project) :: Allowed(m[id].spec, sizes(id))
  }

  ghost predicate AllWellFormed(m: CS.Clusters, project: string, p: Parsers) {
    forall id | id in m && Runs(m[id], project) :: WellFormed(p, m[id].spec)
  }

  /** A running cluster of the project names the resource. */
  ghost predicate Named(m: CS.Clusters, project: string, p: Parsers, r: string) {
    exists id | id in m :: Runs(m[id], project)
      && (r == "cpu" || r == "memory"
          || (r == "nvidia.com/gpu" && NamesGpu(p, m[id].spec, |m[id].spec.workerGroups|)))
  }

  /** However its running clusters scale, the project fits its limit on every
      resource they name. */
  ghost predicate FitsScaled(m: CS.Clusters, project: string, limit: Resources, p: Parsers) {
    && AllWellFormed(m, project, p)
    && forall sizes, r | AllAllowed(m, project, sizes) && Named(m, project, p, r) ::
         Usage(m, project, p, sizes, r) <= Amount(limit, r)
  }

  function DemandOf(p: Parsers): Demand {
    spec => MaxDemand(p, spec)
  }

  lemma {:induction false} UsageWithinTotal(m: CS.Clusters, project: string, p: Parsers, sizes: Id -> Sizes, r: string)
    requires AllWellFormed(m, project, p) && AllAllowed(m, project, sizes)
    ensures Usage(m, project, p, sizes, r) <= Total(m, project, r, DemandOf(p))
    decreases |m|
  {
    if m != map[] {
      var id :| id in m && Usage(m, project, p, sizes, r)
        == (if Runs(m[id], project) then Takes(p, m[id].spec, sizes(id), r) else 0.0)
           + Usage(m - {id}, project, p, sizes, r);
      TotalSplits(m, id, project, r, DemandOf(p));
      DemandBrackets(p, m[id].spec, sizes(id), r);
      UsageWithinTotal(m - {id}, project, p, sizes, r);
    }
  }

  /** Everybody at the largest size takes exactly the total that admission adds up. */
  lemma {:induction false} LargestIsTotal(m: CS.Clusters, project: string, p: Parsers, sizes: Id -> Sizes, r: string)
    requires AllWellFormed(m, project, p)
    requires forall id | id in m && Runs(m[id], project) :: sizes(id) == Largest(m[id].spec)
    ensures Usage(m, project, p, sizes, r) == Total(m, project, r, DemandOf(p))
    decreases |m|
  {
    if m != map[] {
      var id :| id in m && Usage(m, project, p, sizes, r)
        == (if Runs(m[id], project) then Takes(p, m[id].spec, sizes(id), r) else 0.0)
           + Usage(m - {id}, project, p, sizes, r);
      TotalSplits(m, id, project, r, DemandOf(p));
      DemandBrackets(p, m[id].spec, sizes(id), r);
      LargestIsTotal(m - {id}, project, p, sizes, r);
    }
  }

  lemma NamedIsDemanded(m: CS.Clusters, project: string, p: Parsers, r: string)
    requires AllWellFormed(m, project, p)
    ensures Named(m, project, p, r) <==> Demanded(m, project, r, DemandOf(p))
  {
    forall id | id in m && Runs(m[id], project)
      ensures MaxDemand(p, m[id].spec).Some?
      ensures r in MaxDemand(p, m[id].spec).value
        <==> r == "cpu" || r == "memory"
             || (r == "nvidia.com/gpu" && NamesGpu(p, m[id].spec, |m[id].spec.workerGroups|))
    {
      DemandBrackets(p, m[id].spec, [], r);
      DemandNames(p, m[id].spec, |m[id].spec.workerGroups|, true, r);
    }
  }

  lemma ParsesIffWellFormed(m: CS.Clusters, project: string, p: Parsers)
    ensures Parses(m, project, DemandOf(p)) <==> AllWellFormed(m, project, p)
  {
    forall id | id in m ensures MaxDemand(p, m[id].spec).Some? <==> WellFormed(p, m[id].spec) {
      DemandBrackets(p, m[id].spec, [], "cpu");
    }
  }

  /** A project is within its limit by the demand admission computes if and only if
      it fits however its running clusters scale within their bounds. */
  lemma WithinIffFitsScaled(m: CS.Clusters, project: string, limit: Resources, p: Parsers)
    ensures Within(m, project, limit, DemandOf(p)) <==> FitsScaled(m, project, limit, p)
  {
    ParsesIffWellFormed(m, project, p);
    if AllWellFormed(m, project, p) {
      if Within(m, project, limit, DemandOf(p)) {
        forall sizes, r | AllAllowed(m, project, sizes) && Named(m, project, p, r)
          ensures Usage(m, project, p, sizes, r) <= Amount(limit, r)
        {
          NamedIsDemanded(m, project, p, r);
          UsageWithinTotal(m, project, p, sizes, r);
        }
      }
      if FitsScaled(m, project, limit, p) {
        forall r | Demanded(m, project, r, DemandOf(p)) ensures Total(m, project, r, DemandOf(p)) <= Amount(limit, r) {
          NamedIsDemanded(m, project, p, r);
          LargestFits(m, project, limit, p, r);
        }
      }
    }
  }

  lemma LargestFits(m: CS.Clusters, project: string, limit: Resources, p: Parsers, r: string)
    requires FitsScaled(m, project, limit, p) && Named(m, project, p, r)
    ensures Total(m, project, r, DemandOf(p)) <= Amount(limit, r)
  {
    var sizes: Id -> Sizes := id => if id in m then Largest(m[id].spec) else [];
    LargestIsTotal(m, project, p, sizes, r);
    forall id | id in m && Runs(m[id], project) ensures Allowed(m[id].spec, sizes(id)) {
      assert WellFormed(p, m[id].spec);
      assert forall i | 0 <= i < |m[id].spec.workerGroups| :: GroupReads(p, m[id].spec.workerGroups[i]);
    }
    assert AllAllowed(m, project, sizes);
  }

  ghost predicate AllFitScaled(m: CS.Clusters, limits: Limits, p: Parsers) {
    forall project | project in limits :: FitsScaled(m, project, limits[project], p)
  }

  lemma AllWithinIff(m: CS.Clusters, limits: Limits, p: Parsers)
    ensures AllWithin(m, limits, DemandOf(p)) <==> AllFitScaled(m, limits, p)
  {
    forall project | project in limits
      ensures Within(m, project, limits[project], DemandOf(p)) <==> FitsScaled(m, project, limits[project], p)
    {
      WithinIffFitsScaled(m, project, limits[project], p);
    }
  }

  /** No interleaving of creations, suspends, deletes, purges and status writes takes
      a limited project over its limit, however its running clusters scale within
      their bounds, whatever the quantity parsers return. */
  lemma NoOverCommitOfDemand(s: Desk, es: seq<Event>, limits: Limits, p: Parsers)
    requires s.requests == map[] && AllFitScaled(s.clusters, limits, p) && ResumeFree(es)
    ensures AllFitScaled(Exec(s, es, limits, DemandOf(p)).clusters, limits, p)
  {
    AllWithinIff(s.clusters, limits, p);
    DemandNonNegative(p);
    NoOverCommit(s, es, limits, DemandOf(p));
    AllWithinIff(Exec(s, es, limits, DemandOf(p)).clusters, limits, p);
  }

  /** And admission turns nobody away who would fit: on the rows it has listed, the
      check passes if and only if the project fits with the new cluster running,
      however everything scales. */
  lemma AdmitsIffFitsScaled(m: CS.Clusters, order: seq<StoredCluster>, id: Id, spec: ClusterSpec, limit: Resources,
                            p: Parsers)
    requires Outbox.ListsAll(m, order)
    ensures
      var u := InUse(order, spec.project, id, DemandOf(p));
      u.Some? && MaxDemand(p, spec).Some? && FitsWithin(Add(u.value, MaxDemand(p, spec).value), limit)
      <==> FitsScaled(CS.Upsert(m - {id}, id, spec, 0), spec.project, limit, p)
  {
    var m' := CS.Upsert(m - {id}, id, spec, 0);
    assert m' - {id} == m - {id};
    CheckIsExact(m, order, m', id, limit, DemandOf(p));
    WithinIffFitsScaled(m', spec.project, limit, p);
  }
}
