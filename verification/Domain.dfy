// The control plane's vocabulary: what a deployment is, how a change is classified, when a
// rollout is healthy, and what a command must satisfy to be admitted.
module Domain {
  import opened Wrappers
  import GoInt
  import Text

  datatype DeploymentIdentity = DeploymentIdentity(environment: string, namespace: string, name: string,
                                                   nodePool: string)

  datatype ResourceShape = ResourceShape(cpu: real, memoryMiB: int, taskManagers: int, slotsPerManager: int) {
    /** Go's product of two ints, which wraps around. */
    function Slots(): int {
      GoInt.Wrap(taskManagers * slotsPerManager)
    }
  }

  /** The slots of a shape are those of all its task managers, up to 64-bit wrap-around. */
  lemma SlotsMean(r: ResourceShape)
    ensures -0x8000_0000_0000_0000 <= r.Slots() <= 0x7FFF_FFFF_FFFF_FFFF
    ensures exists k: int :: r.Slots() == r.taskManagers * r.slotsPerManager + k * 0x1_0000_0000_0000_0000
    ensures -0x8000_0000_0000_0000 <= r.taskManagers * r.slotsPerManager <= 0x7FFF_FFFF_FFFF_FFFF ==>
              r.Slots() == r.taskManagers * r.slotsPerManager
  {
    var n := r.taskManagers * r.slotsPerManager;
    var k := -((n - r.Slots()) / GoInt.TWO_64);
    assert r.Slots() == n + k * 0x1_0000_0000_0000_0000;
  }

  datatype StateCompatibility = StateCompatibility(
    jobGraphCompatible: bool, operatorUIDsStable: bool, allowNonRestored: bool, freshStartApproved: bool)

  datatype DeploymentSpec = DeploymentSpec(
    imageDigest: string, gitRef: string, flinkVersion: string,
    jobArgs: map<string, string>, flinkConfig: map<string, string>,
    parallelism: int, maxParallelism: int,
    resources: ResourceShape, state: StateCompatibility, autoscalerEnabled: bool)

  datatype HealthSummary = HealthSummary(
    healthy: bool, running: bool, checkpointCompleted: bool, restartCount: int,
    backpressureRatio: real, kafkaLag: int, sinkHealthy: bool, message: string, observedAt: int)

  const NO_HEALTH := HealthSummary(false, false, false, 0, 0.0, 0, false, "", 0)

  /** A SHA-256 digest, represented by what is hashed. ProgramArgs.HashInputDeterminesMap
      shows that hashing a map's sorted pairs is the same as hashing its contents. */
  datatype Digest = OfSpec(spec: DeploymentSpec) | OfMap(pairs: map<string, string>)

  datatype DeploymentVersion = DeploymentVersion(
    versionID: int, spec: DeploymentSpec,
    manifestHash: Digest, jobArgsHash: Digest, flinkConfigHash: Digest,
    savepointURI: string, observedGeneration: int, health: HealthSummary, createdAt: int)

  datatype SavepointRecord = SavepointRecord(
    uri: string, triggerID: string, flinkJobID: string, deploymentVersion: int, createdAt: int)

  datatype Policy = Policy(
    requireProdApproval: bool, gitOpsOnly: bool, allowIncidentDirectPatch: bool,
    requireRiskySavepoint: bool, requireFirstCheckpoint: bool, requireHealthySink: bool,
    maxRestartCount: int, maxBackpressureRatio: real, maxKafkaLag: int)

  /** Go's zero value of the struct. */
  const ZERO_POLICY := Policy(false, false, false, false, false, false, 0, 0.0, 0)

  function DefaultPolicy(environment: string): Policy {
    Policy(environment == "prod", environment == "prod", true, true, true, true, 3, 0.75, 1_000_000)
  }

  // ----- Classification of a change -----

  datatype ChangeRisk = RiskNone | RiskSafe | RiskStateful | RiskRejected

  datatype ChangeClassification = ChangeClassification(
    risk: ChangeRisk, requiresSavepoint: bool, requiresApproval: bool, requiresCapacityLease: bool)

  function ClassifyChange(current: Option<DeploymentVersion>, target: DeploymentSpec, policy: Policy)
    : ChangeClassification
  {
    if current.None? then
      ChangeClassification(RiskSafe, false, policy.requireProdApproval, target.resources.Slots() > 0)
    else
      var before := current.value.spec;
      if target.maxParallelism < before.maxParallelism && current.value.versionID > 0
          && !target.state.freshStartApproved then
        ChangeClassification(RiskRejected, false, true, false)
      else if !target.state.jobGraphCompatible || !target.state.operatorUIDsStable || target.state.allowNonRestored then
        ChangeClassification(RiskStateful, true, true, before.resources != target.resources)
      else if before.jobArgs != target.jobArgs || before.maxParallelism != target.maxParallelism then
        ChangeClassification(RiskStateful, policy.requireRiskySavepoint, policy.requireProdApproval,
                             before.resources != target.resources)
      else if before.parallelism != target.parallelism || before.resources != target.resources then
        ChangeClassification(RiskSafe, false, policy.requireProdApproval, true)
      else if before.imageDigest != target.imageDigest || before.flinkConfig != target.flinkConfig then
        ChangeClassification(RiskSafe, false, policy.requireProdApproval, false)
      else
        ChangeClassification(RiskNone, false, false, false)
  }

  predicate Unsafe(state: StateCompatibility) {
    !state.jobGraphCompatible || !state.operatorUIDsStable || state.allowNonRestored
  }

  /** The classification without the order of its cases: what each demand depends on. */
  lemma ClassificationMeans(current: Option<DeploymentVersion>, target: DeploymentSpec, policy: Policy)
    ensures var c := ClassifyChange(current, target, policy);
      if current.None? then
        c == ChangeClassification(RiskSafe, false, policy.requireProdApproval, target.resources.Slots() > 0)
      else
        var before := current.value.spec;
        var rejected := target.maxParallelism < before.maxParallelism && current.value.versionID > 0
            && !target.state.freshStartApproved;
        var job := before.jobArgs != target.jobArgs || before.maxParallelism != target.maxParallelism;
        var size := before.parallelism != target.parallelism || before.resources != target.resources;
        var image := before.imageDigest != target.imageDigest || before.flinkConfig != target.flinkConfig;
        && (c.risk == RiskRejected <==> rejected)
        && (c.risk == RiskStateful <==> !rejected && (Unsafe(target.state) || job))
        && (c.risk == RiskNone <==> !(rejected || Unsafe(target.state) || job || size || image))
        && (c.requiresSavepoint <==> !rejected && (Unsafe(target.state) || (job && policy.requireRiskySavepoint)))
        && (c.requiresApproval <==>
              rejected || Unsafe(target.state) || ((job || size || image) && policy.requireProdApproval))
        && (c.requiresCapacityLease <==>
              !rejected && (before.resources != target.resources || (size && !job && !Unsafe(target.state))))
  {
  }

  // ----- The health gate -----

  datatype HealthFailure = NotRunning | NoCheckpoint | SinkUnhealthy | TooManyRestarts | Backpressured | Lagging

  /** EvaluateHealth: the first gate the summary fails, if any. */
  function EvaluateHealth(summary: HealthSummary, policy: Policy): Option<HealthFailure> {
    if !summary.running then Some(NotRunning)
    else if policy.requireFirstCheckpoint && !summary.checkpointCompleted then Some(NoCheckpoint)
    else if policy.requireHealthySink && !summary.sinkHealthy then Some(SinkUnhealthy)
    else if summary.restartCount > policy.maxRestartCount then Some(TooManyRestarts)
    else if summary.backpressureRatio > policy.maxBackpressureRatio then Some(Backpressured)
    else if summary.kafkaLag > policy.maxKafkaLag then Some(Lagging)
    else None
  }

  predicate PassesGate(summary: HealthSummary, policy: Policy) {
    EvaluateHealth(summary, policy).None?
  }

  lemma GateMeans(summary: HealthSummary, policy: Policy)
    ensures PassesGate(summary, policy) <==>
      && summary.running
      && (policy.requireFirstCheckpoint ==> summary.checkpointCompleted)
      && (policy.requireHealthySink ==> summary.sinkHealthy)
      && summary.restartCount <= policy.maxRestartCount
      && summary.backpressureRatio <= policy.maxBackpressureRatio
      && summary.kafkaLag <= policy.maxKafkaLag
  {
  }

  /** The failure reported is that of the first condition that does not hold. */
  lemma FailureMeans(summary: HealthSummary, policy: Policy)
    ensures EvaluateHealth(summary, policy) == Some(NotRunning) <==> !summary.running
    ensures EvaluateHealth(summary, policy) == Some(NoCheckpoint) <==>
              summary.running && policy.requireFirstCheckpoint && !summary.checkpointCompleted
    ensures EvaluateHealth(summary, policy) == Some(Lagging) <==>
              PassesGate(summary.(kafkaLag := policy.maxKafkaLag), policy) && summary.kafkaLag > policy.maxKafkaLag
    ensures EvaluateHealth(summary, policy) == Some(Backpressured) ==>
        summary.backpressureRatio > policy.maxBackpressureRatio
    ensures EvaluateHealth(summary, policy) == Some(TooManyRestarts) ==> summary.restartCount > policy.maxRestartCount
    ensures EvaluateHealth(summary, policy) == Some(SinkUnhealthy) ==> policy.requireHealthySink && !summary.sinkHealthy
  {
  }

  /** Production asks for approval and GitOps; everything else is the same everywhere. */
  lemma DefaultPolicyMeans(environment: string)
    ensures var p := DefaultPolicy(environment);
      && (p.requireProdApproval <==> environment == "prod") && (p.gitOpsOnly <==> environment == "prod")
      && p.allowIncidentDirectPatch && p.requireRiskySavepoint && p.requireFirstCheckpoint && p.requireHealthySink
      && p.maxRestartCount == 3 && p.maxBackpressureRatio == 0.75 && p.maxKafkaLag == 1000000
  {
  }

  // ----- Versions -----

  function BuildVersion(id: int, spec: DeploymentSpec, createdAt: int): DeploymentVersion {
    DeploymentVersion(id, spec, OfSpec(spec), OfMap(spec.jobArgs), OfMap(spec.flinkConfig), "", 0, NO_HEALTH, createdAt)
  }

  // ----- Admission -----

  datatype AdmissionFailure =
    | ImageMissing
    | ImageNotPinned
    | ParallelismNotPositive
    | ParallelismAboveMax
    | ChangeRejected
    | ApprovalRequired
    | IncidentPatchDisabled

  /** ValidateSpec: the first rule the request breaks, if any. */
  function ValidateSpec(target: DeploymentSpec, classification: ChangeClassification,
                        approved: bool, incident: bool, policy: Policy): Option<AdmissionFailure>
  {
    if target.imageDigest == "" then Some(ImageMissing)
    else if !Text.Contains(target.imageDigest, "@sha256:") then Some(ImageNotPinned)
    else if target.parallelism <= 0 || target.maxParallelism <= 0 then Some(ParallelismNotPositive)
    else if target.parallelism > target.maxParallelism then Some(ParallelismAboveMax)
    else if classification.risk == RiskRejected then Some(ChangeRejected)
    else if classification.requiresApproval && !approved then Some(ApprovalRequired)
    else if policy.gitOpsOnly && incident && !policy.allowIncidentDirectPatch then Some(IncidentPatchDisabled)
    else None
  }

  lemma AdmissionMeans(target: DeploymentSpec, classification: ChangeClassification, approved: bool, incident: bool,
                       policy: Policy)
    ensures ValidateSpec(target, classification, approved, incident, policy).None? <==>
      && Text.Contains(target.imageDigest, "@sha256:")
      && 0 < target.parallelism <= target.maxParallelism
      && classification.risk != RiskRejected
      && (classification.requiresApproval ==> approved)
      && (policy.gitOpsOnly && incident ==> policy.allowIncidentDirectPatch)
  {
  }

  /** The failure reported names a rule the request breaks, and the earlier rules hold. */
  lemma RefusalMeans(target: DeploymentSpec, classification: ChangeClassification, approved: bool, incident: bool,
                     policy: Policy)
    ensures var refused := ValidateSpec(target, classification, approved, incident, policy);
      && (refused == Some(ImageMissing) <==> target.imageDigest == "")
      && (refused == Some(ImageNotPinned) <==>
            target.imageDigest != "" && !Text.Contains(target.imageDigest, "@sha256:"))
      && (refused == Some(ParallelismNotPositive) ==> target.parallelism <= 0 || target.maxParallelism <= 0)
      && (refused == Some(ParallelismAboveMax) ==> 0 < target.maxParallelism < target.parallelism)
      && (refused == Some(ChangeRejected) ==> classification.risk == RiskRejected)
      && (refused == Some(ApprovalRequired) ==> classification.requiresApproval && !approved)
      && (refused == Some(IncidentPatchDisabled) ==> policy.gitOpsOnly && incident && !policy.allowIncidentDirectPatch)
  {
  }
}
