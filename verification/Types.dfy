/** Entities shared by the control plane's components: cluster specs, stored
    rows, outbox rows, and the saturating u64 arithmetic the source uses. */
module Types {

  datatype Option<+T> = None | Some(value: T)

  type Id = string

  const U64_MAX: nat := 0xFFFF_FFFF_FFFF_FFFF
  const U32_MAX: nat := 0xFFFF_FFFF

  /** `u64::saturating_sub`. */
  function SatSub(a: nat, b: nat): nat {
    if a < b then 0 else a - b
  }

  /** `u64::saturating_add`. */
  function SatAdd(a: nat, b: nat): nat {
    if a + b > U64_MAX then U64_MAX else a + b
  }

  function Pow2(n: nat): (r: nat)
    ensures r > 0
  {
    if n == 0 then 1 else 2 * Pow2(n - 1)
  }

  datatype Engine = Ray | Dask

  datatype WorkerGroup = WorkerGroup(
    name: string, cpu: string, memory: string, gpu: Option<string>,
    minReplicas: nat, maxReplicas: nat, replicas: nat)

  datatype ClusterSpec = ClusterSpec(
    name: string, project: string, engine: Engine, rayVersion: string, image: string,
    headCpu: string, headMemory: string, workerGroups: seq<WorkerGroup>,
    ttlSeconds: Option<nat>, idleTimeoutSecs: Option<nat>, owner: Option<string>)

  datatype ClusterState =
    | Pending | Provisioning | Running | Degraded | Updating
    | Suspending | Suspended | Terminating | Terminated

  datatype DesiredState = WantRunning | WantSuspended | WantTerminated

  datatype DriftCondition = SpecDrift | DegradedCondition

  datatype StoredCluster = StoredCluster(
    id: Id, spec: ClusterSpec, generation: nat, desired: DesiredState,
    observedState: Option<ClusterState>, observedGeneration: nat,
    condition: Option<DriftCondition>, failureCount: nat, nextAttemptAt: nat,
    createdAt: nat, terminatedAt: Option<nat>)

  /** The text `serde_json` produces for a cluster spec or for a pool's desired
      state, represented by the value it encodes; `ForeignText` stands for any
      other text a fingerprint column may hold. */
  datatype Fingerprint =
    | SpecText(spec: ClusterSpec)
    | PoolText(pool: PoolSpec, allocations: seq<AllocationSpec>)
    | ForeignText(text: string)

  datatype PoolSpec = PoolSpec(
    name: string, flavors: seq<string>, cohort: string, fairSharingWeight: real,
    elastic: bool, gpuSharing: Option<string>)

  datatype AllocationSpec = AllocationSpec(
    pool: string, project: string, namespace: string,
    nominal: map<string, string>, borrowingLimit: map<string, string>,
    lendingLimit: map<string, string>)

  datatype IntentStatus = PendingIntent | AppliedIntent

  datatype IntentRecord = IntentRecord(
    paramsFingerprint: Fingerprint, status: IntentStatus, response: Option<string>,
    createdAt: nat, completedAt: Option<nat>)

  datatype IntentOutcome = Proceed(replay: bool) | ParamMismatch

  /** Whether two specs differ in a way that bumps `generation`: the fields the
      source compares, worker groups pairwise. */
  predicate SpecChanged(a: ClusterSpec, b: ClusterSpec) {
    || a.name != b.name
    || a.project != b.project
    || a.rayVersion != b.rayVersion
    || a.image != b.image
    || a.headCpu != b.headCpu
    || a.headMemory != b.headMemory
    || a.ttlSeconds != b.ttlSeconds
    || a.idleTimeoutSecs != b.idleTimeoutSecs
    || |a.workerGroups| != |b.workerGroups|
    || exists i | 0 <= i < |a.workerGroups| :: WorkerGroupChanged(a.workerGroups[i], b.workerGroups[i])
  }

  predicate WorkerGroupChanged(x: WorkerGroup, y: WorkerGroup) {
    || x.name != y.name
    || x.cpu != y.cpu
    || x.memory != y.memory
    || x.gpu != y.gpu
    || x.minReplicas != y.minReplicas
    || x.maxReplicas != y.maxReplicas
    || x.replicas != y.replicas
  }

  /** `spec_changed` and the fingerprint disagree on exactly two fields: an
      unchanged spec can still carry another fingerprint when, and only when,
      the engine or the owner moved. */
  lemma UnchangedSpecFingerprint(a: ClusterSpec, b: ClusterSpec)
    ensures !SpecChanged(a, b) <==> a.(engine := b.engine, owner := b.owner) == b
    ensures !SpecChanged(a, b) ==>
      (SpecText(a) != SpecText(b) <==> a.engine != b.engine || a.owner != b.owner)
  {
    if !SpecChanged(a, b) {
      forall i | 0 <= i < |a.workerGroups| ensures a.workerGroups[i] == b.workerGroups[i] {
        assert !WorkerGroupChanged(a.workerGroups[i], b.workerGroups[i]);
      }
      assert a.workerGroups == b.workerGroups;
    }
  }
}
