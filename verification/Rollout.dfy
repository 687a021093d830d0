// One rollout, as a function of its input and of what the outside world answers. The trace lists
// the requests made, in order; everything the runtime ever sees of a rollout is in it.
module Rollout {
  import opened Wrappers
  import opened Domain

  // ----- What the outside world answers -----

  /** A failed apply may have taken effect before its failure was reported. */
  datatype ApplyAnswer = Done(generation: int) | FailedBefore | FailedAfter

  datatype SavepointAnswers = SavepointAnswers(triggered: bool, record: Option<SavepointRecord>)

  datatype RolloutAnswers = RolloutAnswers(
    validationReached: bool, lease: Option<string>, savepoint: SavepointAnswers,
    apply: ApplyAnswer, health: Option<HealthSummary>, restore: ApplyAnswer,
    createdAt: int, restoredAt: int)

  // ----- What is asked of it -----

  datatype Event =
    | Validated(ok: bool)
    | LeaseGranted(id: string)
    | LeaseRefused
    | LeaseReleased(id: string)
    | SavepointTriggered(ok: bool)
    | SavepointObserved(record: Option<SavepointRecord>)
    | Apply(version: DeploymentVersion, savepointURI: string, previous: Option<DeploymentVersion>, rollback: bool,
        answer: ApplyAnswer)
    | Observed(versionID: int, health: Option<HealthSummary>)
    | JobStateSet(desired: string, ok: bool)
    | Audited(operationID: string)

  /** The version the runtime last took on, given what it ran before. */
  function Runtime(before: Option<DeploymentVersion>, trace: seq<Event>): Option<DeploymentVersion> {
    if trace == [] then before
    else
      var last := trace[|trace| - 1];
      if last.Apply? && !last.answer.FailedBefore? then Some(last.version)
      else Runtime(before, trace[..|trace| - 1])
  }

  lemma {:induction false} RuntimeAppend(before: Option<DeploymentVersion>, a: seq<Event>, b: seq<Event>)
    ensures Runtime(before, a + b) == Runtime(Runtime(before, a), b)
  {
    if b == [] {
      assert a + b == a;
    } else {
      RuntimeAppend(before, a, b[..|b| - 1]);
      assert (a + b)[..|a + b| - 1] == a + b[..|b| - 1];
    }
  }

  /** What one event does to the runtime. */
  function Takes(before: Option<DeploymentVersion>, event: Event): Option<DeploymentVersion> {
    if event.Apply? && !event.answer.FailedBefore? then Some(event.version) else before
  }

  lemma RuntimeNext(before: Option<DeploymentVersion>, trace: seq<Event>, event: Event)
    ensures Runtime(before, trace + [event]) == Takes(Runtime(before, trace), event)
  {
    assert (trace + [event])[..|trace|] == trace;
  }

  lemma RuntimeThree(before: Option<DeploymentVersion>, a: Event, b: Event, c: Event)
    ensures Runtime(before, [a]) == Takes(before, a)
    ensures Runtime(before, [a, b]) == Takes(Takes(before, a), b)
    ensures Runtime(before, [a, b, c]) == Takes(Takes(Takes(before, a), b), c)
  {
    RuntimeNext(before, [], a);
    RuntimeNext(before, [a], b);
    RuntimeNext(before, [a, b], c);
    assert [] + [a] == [a] && [a] + [b] == [a, b] && [a, b] + [c] == [a, b, c];
  }

  // ----- The workflow -----

  datatype RolloutInput = RolloutInput(
    identity: DeploymentIdentity, current: Option<DeploymentVersion>, target: DeploymentSpec, policy: Policy,
    operationID: string, approved: bool, incident: bool)

  datatype RolloutError =
    | NotAdmitted(reason: AdmissionFailure)
    | ActivityFailed
    | InitialGateFailed(failure: HealthFailure)
    | RestoreFailed(failure: HealthFailure)
    | Restored(failure: HealthFailure)

  datatype RolloutResult = RolloutResult(version: DeploymentVersion, savepoint: Option<SavepointRecord>,
                                         leaseID: string)

  /** An error carries no result: Temporal drops the result of a failed child. */
  datatype RolloutRun = RolloutRun(trace: seq<Event>, outcome: Result<RolloutResult, RolloutError>)

  function Classification(input: RolloutInput): ChangeClassification {
    ClassifyChange(input.current, input.target, input.policy)
  }

  function AdmissionOf(input: RolloutInput): Option<AdmissionFailure> {
    ValidateSpec(input.target, Classification(input), input.approved, input.incident, input.policy)
  }

  function NextID(current: Option<DeploymentVersion>): int {
    if current.Some? then current.value.versionID + 1 else 1
  }

  /** SavepointWorkflow: trigger, then observe. */
  function SavepointRun(answers: SavepointAnswers): (seq<Event>, Option<SavepointRecord>) {
    if !answers.triggered then ([SavepointTriggered(false)], None)
    else ([SavepointTriggered(true), SavepointObserved(answers.record)], answers.record)
  }

  /** The version restored when the gate fails. */
  function Restoration(current: DeploymentVersion, savepoint: Option<SavepointRecord>, at: int): DeploymentVersion {
    current.(createdAt := at,
             savepointURI := if current.savepointURI == "" && savepoint.Some? then savepoint.value.uri
                 else current.savepointURI)
  }

  /** Apply, observe, gate, and restore the previous version when the gate fails. */
  function ApplyAndGate(input: RolloutInput, answers: RolloutAnswers, version: DeploymentVersion,
                        savepoint: Option<SavepointRecord>, leaseID: string): RolloutRun
  {
    var first := Apply(version, version.savepointURI, input.current, false, answers.apply);
    if !answers.apply.Done? then RolloutRun([first], Err(ActivityFailed))
    else
      var look := Observed(version.versionID, answers.health);
      if answers.health.None? then RolloutRun([first, look], Err(ActivityFailed))
      else
        var observed := version.(observedGeneration := answers.apply.generation, health := answers.health.value);
        match EvaluateHealth(answers.health.value, input.policy)
        case None =>
          var passed := observed.(health := observed.health.(healthy := true));
          RolloutRun([first, look], Ok(RolloutResult(passed, savepoint, leaseID)))
        case Some(failure) =>
          if input.current.None? then RolloutRun([first, look], Err(InitialGateFailed(failure)))
          else
            var restored := Restoration(input.current.value, savepoint, answers.restoredAt);
            var second := Apply(restored, restored.savepointURI, Some(observed), true, answers.restore);
            RolloutRun([first, look, second], Err(if answers.restore.Done? then Restored(failure)
                else RestoreFailed(failure)))
  }

  /** What happens between acquiring the lease, if any, and releasing it. */
  function Leased(input: RolloutInput, answers: RolloutAnswers, leaseID: string): RolloutRun {
    var version := BuildVersion(NextID(input.current), input.target, answers.createdAt);
    if Classification(input).requiresSavepoint && input.current.Some? then
      var (events, record) := SavepointRun(answers.savepoint);
      if record.None? then RolloutRun(events, Err(ActivityFailed))
      else
        var rest := ApplyAndGate(input, answers, version.(savepointURI := record.value.uri), record, leaseID);
        RolloutRun(events + rest.trace, rest.outcome)
    else ApplyAndGate(input, answers, version, None, leaseID)
  }

  function RunRollout(input: RolloutInput, answers: RolloutAnswers): RolloutRun {
    if !answers.validationReached then RolloutRun([Validated(false)], Err(ActivityFailed))
    else if AdmissionOf(input).Some? then RolloutRun([Validated(false)], Err(NotAdmitted(AdmissionOf(input).value)))
    else if !Classification(input).requiresCapacityLease then
      var rest := Leased(input, answers, "");
      RolloutRun([Validated(true)] + rest.trace, rest.outcome)
    else if answers.lease.None? then RolloutRun([Validated(true), LeaseRefused], Err(ActivityFailed))
    else
      var rest := Leased(input, answers, answers.lease.value);
      RolloutRun([Validated(true), LeaseGranted(answers.lease.value)] + rest.trace
          + [LeaseReleased(answers.lease.value)], rest.outcome)
  }

  // ----- Trace discipline -----

  /** Validation comes first, once, and nothing else happens unless it succeeds. */
  predicate ValidatesFirst(trace: seq<Event>) {
    && trace != [] && trace[0].Validated?
    && (forall i | 0 < i < |trace| :: !trace[i].Validated?)
    && (|trace| > 1 ==> trace[0].ok)
  }

  /** A granted lease is released exactly once, by the last step, so after every apply; and
      nothing else is ever released. */
  predicate ReleasesLease(trace: seq<Event>) {
    && (forall i | 0 <= i < |trace| && trace[i].LeaseGranted? ::
          i < |trace| - 1 && trace[|trace| - 1] == LeaseReleased(trace[i].id))
    && (forall i | 0 <= i < |trace| && trace[i].LeaseReleased? ::
          i == |trace| - 1 && exists j :: 0 <= j < i && trace[j] == LeaseGranted(trace[i].id))
    && (forall i, j | 0 <= i < j < |trace| && trace[i].LeaseGranted? :: !trace[j].LeaseGranted?)
    && (forall i, j | 0 <= i < |trace| && 0 <= j < |trace| && trace[i].LeaseGranted? && trace[j].Apply? :: i < j)
  }

  /** An apply of the new version comes after the savepoint it starts from. */
  predicate SavepointBeforeApply(input: RolloutInput, trace: seq<Event>) {
    Classification(input).requiresSavepoint && input.current.Some? ==>
      forall i | 0 <= i < |trace| && trace[i].Apply? && !trace[i].rollback ::
        exists j :: 0 <= j < i && trace[j].SavepointObserved? && trace[j].record.Some?
                    && trace[i].savepointURI == trace[i].version.savepointURI == trace[j].record.value.uri
  }

  predicate GateFailedAt(input: RolloutInput, trace: seq<Event>, j: nat)
    requires j < |trace|
  {
    trace[j].Observed? && trace[j].health.Some? && !PassesGate(trace[j].health.value, input.policy)
  }

  predicate FirstApplyAt(trace: seq<Event>, j: nat)
    requires j < |trace|
  {
    trace[j].Apply? && !trace[j].rollback && trace[j].answer.Done?
  }

  predicate FailedGateBefore(input: RolloutInput, trace: seq<Event>, i: nat)
    requires i < |trace|
  {
    exists j :: 0 < j < i && GateFailedAt(input, trace, j)
  }

  predicate FirstApplyBefore(trace: seq<Event>, i: nat)
    requires i < |trace|
  {
    exists j :: 0 <= j < i && FirstApplyAt(trace, j)
  }

  /** The first apply carries the new version; a second follows a failed gate only, and carries
      the previous version's ID and spec; there is no third. */
  predicate AppliesAtMostTwice(input: RolloutInput, trace: seq<Event>) {
    && (forall i | 0 <= i < |trace| && trace[i].Apply? && !trace[i].rollback ::
          && trace[i].version.versionID == NextID(input.current) && trace[i].version.spec == input.target
          && trace[i].previous == input.current
          && forall j | 0 <= j < |trace| && j != i && trace[j].Apply? :: trace[j].rollback && i < j)
    && (forall i | 0 <= i < |trace| && trace[i].Apply? && trace[i].rollback ::
          && input.current.Some?
          && trace[i].version.versionID == input.current.value.versionID
              && trace[i].version.spec == input.current.value.spec
          && FailedGateBefore(input, trace, i) && FirstApplyBefore(trace, i)
          && forall j | 0 <= j < |trace| && j != i && trace[j].Apply? :: !trace[j].rollback)
  }

  /** Changing the resources of an existing version never reaches the runtime without a lease. */
  predicate LeaseForNewResources(input: RolloutInput, trace: seq<Event>) {
    input.current.Some? && input.current.value.spec.resources != input.target.resources ==>
      forall i | 0 <= i < |trace| && trace[i].Apply? :: exists j :: 0 <= j < i && trace[j].LeaseGranted?
  }

  predicate Disciplined(input: RolloutInput, trace: seq<Event>) {
    && ValidatesFirst(trace)
    && ReleasesLease(trace)
    && SavepointBeforeApply(input, trace)
    && AppliesAtMostTwice(input, trace)
    && LeaseForNewResources(input, trace)
  }

  /** An admitted change of an existing version's resources requires a lease. */
  lemma AdmittedResourceChangeTakesLease(input: RolloutInput)
    requires AdmissionOf(input).None?
    requires input.current.Some? && input.current.value.spec.resources != input.target.resources
    ensures Classification(input).requiresCapacityLease
  {
  }

  /** The middle part of a rollout: no validation and no lease in it, and the apply rules hold. */
  predicate MiddleOk(input: RolloutInput, trace: seq<Event>) {
    && (forall i | 0 <= i < |trace| :: !trace[i].Validated? && !trace[i].LeaseGranted? && !trace[i].LeaseReleased?)
    && SavepointBeforeApply(input, trace)
    && AppliesAtMostTwice(input, trace)
  }

  lemma ApplyAndGateShape(input: RolloutInput, answers: RolloutAnswers, version: DeploymentVersion,
                          savepoint: Option<SavepointRecord>, leaseID: string)
    requires version.versionID == NextID(input.current) && version.spec == input.target
    ensures var trace := ApplyAndGate(input, answers, version, savepoint, leaseID).trace;
            && 1 <= |trace| <= 3
            && (forall i | 0 <= i < |trace| ::
                  !trace[i].Validated? && !trace[i].LeaseGranted? && !trace[i].LeaseReleased?)
            && AppliesAtMostTwice(input, trace)
            && (forall i | 0 <= i < |trace| && trace[i].Apply? && !trace[i].rollback ::
                  trace[i].savepointURI == trace[i].version.savepointURI == version.savepointURI)
  {
    var trace := ApplyAndGate(input, answers, version, savepoint, leaseID).trace;
    if |trace| == 3 {
      assert GateFailedAt(input, trace, 1) && FirstApplyAt(trace, 0);
    }
  }

  /** Putting events other than applies in front of a trace keeps its apply rules. */
  lemma AppliesShift(input: RolloutInput, before: seq<Event>, trace: seq<Event>)
    requires AppliesAtMostTwice(input, trace)
    requires forall i | 0 <= i < |before| :: !before[i].Apply?
    ensures AppliesAtMostTwice(input, before + trace)
  {
    var all := before + trace;
    var n := |before|;
    assert forall i | n <= i < |all| :: all[i] == trace[i - n];
    forall i | 0 <= i < |all| && all[i].Apply? && all[i].rollback
      ensures FailedGateBefore(input, all, i) && FirstApplyBefore(all, i)
    {
      assert FailedGateBefore(input, trace, i - n) && FirstApplyBefore(trace, i - n);
      var j :| 0 < j < i - n && GateFailedAt(input, trace, j);
      assert GateFailedAt(input, all, j + n);
      var l :| 0 <= l < i - n && FirstApplyAt(trace, l);
      assert FirstApplyAt(all, l + n);
    }
    forall i, j | 0 <= i < |all| && 0 <= j < |all| && i != j && all[i].Apply? && all[j].Apply?
      ensures all[i].rollback != all[j].rollback && (!all[i].rollback ==> i < j)
    {
      assert trace[i - n] == all[i] && trace[j - n] == all[j];
    }
  }

  lemma LeasedShape(input: RolloutInput, answers: RolloutAnswers, leaseID: string)
    ensures MiddleOk(input, Leased(input, answers, leaseID).trace)
  {
    var version := BuildVersion(NextID(input.current), input.target, answers.createdAt);
    if Classification(input).requiresSavepoint && input.current.Some? {
      var (events, record) := SavepointRun(answers.savepoint);
      if record.Some? {
        var version' := version.(savepointURI := record.value.uri);
        ApplyAndGateShape(input, answers, version', record, leaseID);
        var rest := ApplyAndGate(input, answers, version', record, leaseID).trace;
        var all := events + rest;
        AppliesShift(input, events, rest);
        assert all[1] == SavepointObserved(record);
        forall i | 0 <= i < |all| && all[i].Apply? && !all[i].rollback
          ensures all[i].savepointURI == all[i].version.savepointURI == all[1].record.value.uri && 1 < i
        {
          assert rest[i - 2] == all[i];
        }
      }
    } else {
      ApplyAndGateShape(input, answers, version, None, leaseID);
    }
  }

  /** Releasing leases after a trace keeps its apply and savepoint rules. */
  lemma AppliesAppend(input: RolloutInput, trace: seq<Event>, after: seq<Event>)
    requires AppliesAtMostTwice(input, trace)
    requires forall i | 0 <= i < |after| :: after[i].LeaseReleased?
    ensures AppliesAtMostTwice(input, trace + after)
  {
    var all := trace + after;
    assert forall i | 0 <= i < |trace| :: all[i] == trace[i];
    assert forall i | |trace| <= i < |all| :: all[i].LeaseReleased?;
    forall i | 0 <= i < |all| && all[i].Apply? && all[i].rollback
      ensures FailedGateBefore(input, all, i) && FirstApplyBefore(all, i)
    {
      assert FailedGateBefore(input, trace, i) && FirstApplyBefore(trace, i);
      var j :| 0 < j < i && GateFailedAt(input, trace, j);
      assert GateFailedAt(input, all, j);
      var l :| 0 <= l < i && FirstApplyAt(trace, l);
      assert FirstApplyAt(all, l);
    }
  }

  lemma SavepointFramed(input: RolloutInput, before: seq<Event>, middle: seq<Event>, after: seq<Event>)
    requires SavepointBeforeApply(input, middle)
    requires forall i | 0 <= i < |before| :: !before[i].Apply?
    requires forall i | 0 <= i < |after| :: after[i].LeaseReleased?
    ensures SavepointBeforeApply(input, before + middle + after)
  {
    hide Classification;
    var n, all := |before|, before + middle + after;
    assert forall i | n <= i < n + |middle| :: all[i] == middle[i - n];
    assert forall i | n + |middle| <= i < |all| :: all[i].LeaseReleased?;
    if Classification(input).requiresSavepoint && input.current.Some? {
      forall i | 0 <= i < |all| && all[i].Apply? && !all[i].rollback
        ensures exists j :: 0 <= j < i && all[j].SavepointObserved? && all[j].record.Some?
                  && all[i].savepointURI == all[i].version.savepointURI == all[j].record.value.uri
      {
        var j :| 0 <= j < i - n && middle[j].SavepointObserved? && middle[j].record.Some?
                  && middle[i - n].savepointURI == middle[i - n].version.savepointURI == middle[j].record.value.uri;
        assert all[j + n] == middle[j];
      }
    }
  }

  lemma FramedShape(input: RolloutInput, before: seq<Event>, middle: seq<Event>, after: seq<Event>)
    requires MiddleOk(input, middle)
    requires forall i | 0 <= i < |before| :: !before[i].Apply?
    requires forall i | 0 <= i < |after| :: after[i].LeaseReleased?
    ensures AppliesAtMostTwice(input, before + middle + after) && SavepointBeforeApply(input, before + middle + after)
  {
    hide AppliesAtMostTwice, SavepointBeforeApply;
    AppliesShift(input, before, middle);
    AppliesAppend(input, before + middle, after);
    SavepointFramed(input, before, middle, after);
  }

  lemma UnleasedDisciplined(input: RolloutInput, middle: seq<Event>)
    requires MiddleOk(input, middle) && AdmissionOf(input).None? && !Classification(input).requiresCapacityLease
    ensures Disciplined(input, [Validated(true)] + middle)
  {
    var trace := [Validated(true)] + middle;
    FramedShape(input, [Validated(true)], middle, []);
    assert trace == [Validated(true)] + middle + [];
    assert forall i | 0 < i < |trace| :: trace[i] == middle[i - 1];
    if input.current.Some? && input.current.value.spec.resources != input.target.resources {
      AdmittedResourceChangeTakesLease(input);
      assert false;
    }
  }

  lemma LeasedDisciplined(input: RolloutInput, id: string, middle: seq<Event>)
    requires MiddleOk(input, middle)
    ensures Disciplined(input, [Validated(true), LeaseGranted(id)] + middle + [LeaseReleased(id)])
  {
    var trace := [Validated(true), LeaseGranted(id)] + middle + [LeaseReleased(id)];
    FramedShape(input, [Validated(true), LeaseGranted(id)], middle, [LeaseReleased(id)]);
    assert trace[0] == Validated(true) && trace[1] == LeaseGranted(id) && trace[|trace| - 1] == LeaseReleased(id);
    assert forall i | 2 <= i < |trace| - 1 :: trace[i] == middle[i - 2];
  }

  /** Every rollout, on every exit path, whatever the outside world answers. */
  lemma RolloutDisciplined(input: RolloutInput, answers: RolloutAnswers)
    ensures Disciplined(input, RunRollout(input, answers).trace)
  {
    if answers.validationReached && AdmissionOf(input).None? {
      if !Classification(input).requiresCapacityLease {
        LeasedShape(input, answers, "");
        UnleasedDisciplined(input, Leased(input, answers, "").trace);
      } else if answers.lease.Some? {
        LeasedShape(input, answers, answers.lease.value);
        LeasedDisciplined(input, answers.lease.value, Leased(input, answers, answers.lease.value).trace);
      }
    }
  }

  // ----- What a rollout returns -----

  /** The next version, with the target's spec and digests, healthy by the policy's gate. */
  predicate HealthyNext(input: RolloutInput, v: DeploymentVersion) {
    && v.versionID == NextID(input.current) && v.spec == input.target
    && v.manifestHash == OfSpec(v.spec) && v.jobArgsHash == OfMap(v.spec.jobArgs)
        && v.flinkConfigHash == OfMap(v.spec.flinkConfig)
    && v.health.healthy && PassesGate(v.health, input.policy)
  }

  lemma GateMakesHealthy(input: RolloutInput, answers: RolloutAnswers, uri: string, savepoint: Option<SavepointRecord>,
                         leaseID: string)
    ensures var version := BuildVersion(NextID(input.current), input.target, answers.createdAt).(savepointURI := uri);
            var run := ApplyAndGate(input, answers, version, savepoint, leaseID);
            run.outcome.Ok? ==> HealthyNext(input, run.outcome.value.version)
  {
  }

  lemma LeasedMakesHealthy(input: RolloutInput, answers: RolloutAnswers, leaseID: string)
    ensures var run := Leased(input, answers, leaseID); run.outcome.Ok? ==>
        HealthyNext(input, run.outcome.value.version)
  {
    var version := BuildVersion(NextID(input.current), input.target, answers.createdAt);
    assert version.(savepointURI := "") == version;
    var record := SavepointRun(answers.savepoint).1;
    GateMakesHealthy(input, answers, "", None, leaseID);
    if record.Some? { GateMakesHealthy(input, answers, record.value.uri, record, leaseID); }
    hide ApplyAndGate, HealthyNext;
  }

  /** A rollout that succeeds was admitted, has passed the gate, and returns the target as the
      next version, marked healthy. */
  lemma RolloutResultIsHealthy(input: RolloutInput, answers: RolloutAnswers)
    requires RunRollout(input, answers).outcome.Ok?
    ensures AdmissionOf(input).None?
    ensures HealthyNext(input, RunRollout(input, answers).outcome.value.version)
  {
    LeasedMakesHealthy(input, answers, "");
    if answers.lease.Some? { LeasedMakesHealthy(input, answers, answers.lease.value); }
    hide Leased, HealthyNext, AdmissionOf, Classification;
  }

  function IDOf(version: Option<DeploymentVersion>): int {
    if version.Some? then version.value.versionID else 0
  }

  /** The runtime is where the actor thinks it is, or one version ahead of it. */
  predicate InStep(runtime: Option<DeploymentVersion>, current: Option<DeploymentVersion>) {
    && IDOf(current) <= IDOf(runtime) <= IDOf(current) + 1
    && (IDOf(runtime) == IDOf(current) && current.Some? ==>
          runtime.Some? && runtime.value.spec == current.value.spec)
  }

  function AfterRollout(input: RolloutInput, answers: RolloutAnswers): Option<DeploymentVersion> {
    match RunRollout(input, answers).outcome
    case Ok(result) => Some(result.version)
    case Err(_) => input.current
  }

  lemma RuntimeOfApplyAndGate(input: RolloutInput, answers: RolloutAnswers, version: DeploymentVersion,
                              savepoint: Option<SavepointRecord>, leaseID: string, before: Option<DeploymentVersion>)
    requires version.versionID == NextID(input.current) && version.spec == input.target
    requires input.current.Some? ==> input.current.value.versionID > 0
    requires InStep(before, input.current)
    ensures var run := ApplyAndGate(input, answers, version, savepoint, leaseID);
            InStep(Runtime(before, run.trace), if run.outcome.Ok? then Some(run.outcome.value.version)
                else input.current)
  {
    hide Runtime;
    var trace := ApplyAndGate(input, answers, version, savepoint, leaseID).trace;
    if |trace| == 1 {
      RuntimeThree(before, trace[0], trace[0], trace[0]);
      assert trace == [trace[0]];
    } else if |trace| == 2 {
      RuntimeThree(before, trace[0], trace[1], trace[0]);
      assert trace == [trace[0], trace[1]];
    } else {
      RuntimeThree(before, trace[0], trace[1], trace[2]);
      assert trace == [trace[0], trace[1], trace[2]];
    }
  }

  lemma QuietEvents(before: Option<DeploymentVersion>, trace: seq<Event>)
    requires forall i | 0 <= i < |trace| :: !trace[i].Apply?
    ensures Runtime(before, trace) == before
  {
  }

  lemma RuntimeOfLeased(input: RolloutInput, answers: RolloutAnswers, leaseID: string,
                        before: Option<DeploymentVersion>)
    requires input.current.Some? ==> input.current.value.versionID > 0
    requires InStep(before, input.current)
    ensures var run := Leased(input, answers, leaseID);
            InStep(Runtime(before, run.trace), if run.outcome.Ok? then Some(run.outcome.value.version)
                else input.current)
  {
    var version := BuildVersion(NextID(input.current), input.target, answers.createdAt);
    if Classification(input).requiresSavepoint && input.current.Some? {
      var (events, record) := SavepointRun(answers.savepoint);
      QuietEvents(before, events);
      if record.Some? {
        var version' := version.(savepointURI := record.value.uri);
        RuntimeOfApplyAndGate(input, answers, version', record, leaseID, before);
        RuntimeAppend(before, events, ApplyAndGate(input, answers, version', record, leaseID).trace);
      }
    } else {
      RuntimeOfApplyAndGate(input, answers, version, None, leaseID, before);
    }
  }

  /** However a rollout ends, and although its applies may take effect and still fail, the runtime
      stays in step with the version the actor goes on with. */
  lemma RolloutStaysInStep(input: RolloutInput, answers: RolloutAnswers, before: Option<DeploymentVersion>)
    requires input.current.Some? ==> input.current.value.versionID > 0
    requires InStep(before, input.current)
    ensures InStep(Runtime(before, RunRollout(input, answers).trace), AfterRollout(input, answers))
  {
    var trace := RunRollout(input, answers).trace;
    if answers.validationReached && AdmissionOf(input).None? {
      if !Classification(input).requiresCapacityLease {
        RuntimeOfLeased(input, answers, "", before);
        RuntimeAppend(before, [Validated(true)], Leased(input, answers, "").trace);
        QuietEvents(before, [Validated(true)]);
      } else if answers.lease.Some? {
        var id := answers.lease.value;
        var middle := Leased(input, answers, id).trace;
        RuntimeOfLeased(input, answers, id, before);
        QuietEvents(before, [Validated(true), LeaseGranted(id)]);
        RuntimeAppend(before, [Validated(true), LeaseGranted(id)], middle);
        var after := Runtime(before, [Validated(true), LeaseGranted(id)] + middle);
        QuietEvents(after, [LeaseReleased(id)]);
        RuntimeAppend(before, [Validated(true), LeaseGranted(id)] + middle, [LeaseReleased(id)]);
      } else {
        QuietEvents(before, trace);
      }
    } else {
      QuietEvents(before, trace);
    }
  }

  /** Lowering max parallelism of an existing version never gets as far as an apply, unless the
      new spec says a fresh start is approved. */
  lemma LowerMaxParallelismNeverApplied(input: RolloutInput, answers: RolloutAnswers)
    requires input.current.Some? && input.current.value.versionID > 0
    requires input.target.maxParallelism < input.current.value.spec.maxParallelism
        && !input.target.state.freshStartApproved
    ensures RunRollout(input, answers).outcome.Err?
    ensures forall i | 0 <= i < |RunRollout(input, answers).trace| :: !RunRollout(input, answers).trace[i].Apply?
  {
  }

  // ----- What the applies carry -----

  /** The URI of the savepoint that was observed before step i; empty if there was none. */
  function SavedBefore(trace: seq<Event>, i: nat): string
    requires i <= |trace|
  {
    if i == 0 then ""
    else if trace[i - 1].SavepointObserved? && trace[i - 1].record.Some? then trace[i - 1].record.value.uri
    else SavedBefore(trace, i - 1)
  }

  /** An apply starts from the savepoint its version names. The first carries the next version of the
      target, and names the savepoint just taken, if any. The second carries the current version again,
      with its own savepoint, or if it has none with the one just taken, and says what it replaces: the
      applied target as it was observed. */
  ghost predicate Carries(input: RolloutInput, answers: RolloutAnswers, uri: string, a: Event)
    requires a.Apply?
  {
    var id := if input.current.Some? then input.current.value.versionID + 1 else 1;
    var unseen := HealthSummary(false, false, false, 0, 0.0, 0, false, "", 0);
    var target := DeploymentVersion(id, input.target, OfSpec(input.target), OfMap(input.target.jobArgs),
                                    OfMap(input.target.flinkConfig), uri, 0, unseen, answers.createdAt);
    && a.savepointURI == a.version.savepointURI
    && (!a.rollback ==> a.previous == input.current && a.version == target && a.answer == answers.apply)
    && (a.rollback ==>
          && input.current.Some? && answers.apply.Done? && answers.health.Some?
          && a.previous == Some(target.(observedGeneration := answers.apply.generation, health := answers.health.value))
          && a.version == input.current.value.(createdAt := answers.restoredAt, savepointURI := a.version.savepointURI)
          && (input.current.value.savepointURI != "" ==> a.version.savepointURI == input.current.value.savepointURI)
          && (input.current.value.savepointURI == "" ==> a.version.savepointURI == uri)
          && a.answer == answers.restore)
  }

  /** An apply of a trace carries what it should, given the savepoint observed before it. */
  ghost predicate ApplyCarries(input: RolloutInput, answers: RolloutAnswers, trace: seq<Event>, i: nat)
    requires i < |trace| && trace[i].Apply?
  {
    Carries(input, answers, SavedBefore(trace, i), trace[i])
  }

  lemma MiddleCarries(input: RolloutInput, answers: RolloutAnswers, savepoint: Option<SavepointRecord>, leaseID: string)
    ensures var uri := if savepoint.Some? then savepoint.value.uri else "";
            var version := BuildVersion(NextID(input.current), input.target, answers.createdAt).(savepointURI := uri);
            var middle := ApplyAndGate(input, answers, version, savepoint, leaseID).trace;
            forall k | 0 <= k < |middle| ::
              && !middle[k].SavepointObserved?
              && (middle[k].Apply? ==> Carries(input, answers, uri, middle[k]))
  {
    hide EvaluateHealth;
  }

  lemma ApplyAndGateCarries(input: RolloutInput, answers: RolloutAnswers, before: seq<Event>, after: seq<Event>,
                            savepoint: Option<SavepointRecord>, leaseID: string, i: nat)
    requires SavedBefore(before, |before|) == if savepoint.Some? then savepoint.value.uri else ""
    requires forall k | 0 <= k < |before| :: !before[k].Apply?
    requires forall k | 0 <= k < |after| :: !after[k].Apply?
    ensures var uri := if savepoint.Some? then savepoint.value.uri else "";
            var version := BuildVersion(NextID(input.current), input.target, answers.createdAt).(savepointURI := uri);
            var trace := before + ApplyAndGate(input, answers, version, savepoint, leaseID).trace + after;
            i < |trace| && trace[i].Apply? ==> ApplyCarries(input, answers, trace, i)
  {
    var uri := if savepoint.Some? then savepoint.value.uri else "";
    var version := BuildVersion(NextID(input.current), input.target, answers.createdAt).(savepointURI := uri);
    hide ApplyAndGate;
    var middle := ApplyAndGate(input, answers, version, savepoint, leaseID).trace;
    MiddleCarries(input, answers, savepoint, leaseID);
    InFrame(before, middle, after, i);
    hide SavedBefore, Carries, ApplyCarries;
    if i < |before + middle + after| && (before + middle + after)[i].Apply? {
      SameCarrying(input, answers, uri, before + middle + after, i);
    }
  }

  lemma InFrame(before: seq<Event>, middle: seq<Event>, after: seq<Event>, i: nat)
    requires forall k | 0 <= k < |before| :: !before[k].Apply?
    requires forall k | 0 <= k < |after| :: !after[k].Apply?
    requires forall k | 0 <= k < |middle| :: !middle[k].SavepointObserved?
    ensures var trace := before + middle + after;
            i < |trace| && trace[i].Apply? ==>
              && |before| <= i < |before| + |middle| && trace[i] == middle[i - |before|]
              && SavedBefore(trace, i) == SavedBefore(before, |before|)
  {
    var trace := before + middle + after;
    var n := |before|;
    if i < |trace| && trace[i].Apply? {
      assert forall k | 0 <= k < n :: trace[k] == before[k];
      assert forall k | n + |middle| <= k < |trace| :: trace[k] == after[k - n - |middle|];
      assert forall k | 0 <= k < |middle| :: trace[n + k] == middle[k];
      assert forall k | n <= k < n + |middle| :: trace[k] == middle[k - n];
      SavedPrefix(before, trace, n);
      SavedSince(trace, n, i);
    }
  }

  lemma SameCarrying(input: RolloutInput, answers: RolloutAnswers, uri: string, trace: seq<Event>, i: nat)
    requires i < |trace| && trace[i].Apply? && SavedBefore(trace, i) == uri && Carries(input, answers, uri, trace[i])
    ensures ApplyCarries(input, answers, trace, i)
  {
    hide Carries, SavedBefore;
  }

  lemma {:induction false} SavedPrefix(before: seq<Event>, trace: seq<Event>, n: nat)
    requires n <= |before| && before <= trace
    ensures SavedBefore(trace, n) == SavedBefore(before, n)
  {
    if n > 0 {
      SavedPrefix(before, trace, n - 1);
      assert trace[n - 1] == before[n - 1];
    }
  }

  lemma {:induction false} SavedSince(trace: seq<Event>, n: nat, i: nat)
    requires n <= i <= |trace| && forall k | n <= k < i :: !trace[k].SavepointObserved?
    ensures SavedBefore(trace, i) == SavedBefore(trace, n)
    decreases i
  {
    if n < i {
      SavedSince(trace, n, i - 1);
    }
  }

  lemma LeasedCarries(input: RolloutInput, answers: RolloutAnswers, before: seq<Event>, after: seq<Event>,
                      leaseID: string, i: nat)
    requires forall k | 0 <= k < |before| :: !before[k].Apply? && !before[k].SavepointObserved?
    requires forall k | 0 <= k < |after| :: !after[k].Apply?
    ensures var trace := before + Leased(input, answers, leaseID).trace + after;
            i < |trace| && trace[i].Apply? ==> ApplyCarries(input, answers, trace, i)
  {
    var version := BuildVersion(NextID(input.current), input.target, answers.createdAt);
    SavedSince(before, 0, |before|);
    if Classification(input).requiresSavepoint && input.current.Some? {
      var (events, record) := SavepointRun(answers.savepoint);
      hide ApplyAndGate, Classification, ApplyCarries;
      if record.Some? {
        var front := before + events;
        SavedPrefix(before, front, |before|);
        assert front[|before| + 1] == SavepointObserved(record);
        assert SavedBefore(front, |front|) == record.value.uri;
        ApplyAndGateCarries(input, answers, front, after, record, leaseID, i);
        var rest := ApplyAndGate(input, answers, version.(savepointURI := record.value.uri), record, leaseID).trace;
        assert before + (events + rest) + after == front + rest + after;
      } else {
        assert forall k | 0 <= k < |before + events + after| :: !(before + events + after)[k].Apply?;
      }
    } else {
      assert version.(savepointURI := "") == version;
      ApplyAndGateCarries(input, answers, before, after, None, leaseID, i);
    }
  }

  /** Whatever the answers, every apply of every rollout carries what it should. */
  lemma AppliesCarryState(input: RolloutInput, answers: RolloutAnswers, i: nat)
    requires i < |RunRollout(input, answers).trace| && RunRollout(input, answers).trace[i].Apply?
    ensures ApplyCarries(input, answers, RunRollout(input, answers).trace, i)
  {
    var trace := RunRollout(input, answers).trace;
    hide Leased, ApplyCarries, Classification, AdmissionOf;
    if answers.validationReached && AdmissionOf(input).None? {
      if !Classification(input).requiresCapacityLease {
        LeasedCarries(input, answers, [Validated(true)], [], "", i);
        assert trace == [Validated(true)] + Leased(input, answers, "").trace + [];
      } else if answers.lease.Some? {
        var id := answers.lease.value;
        LeasedCarries(input, answers, [Validated(true), LeaseGranted(id)], [LeaseReleased(id)], id, i);
      }
    }
  }

  /** The only look at the runtime comes right after a first apply that was answered, and is a look at
      the version applied. */
  ghost predicate LooksAtApplied(trace: seq<Event>, health: Option<HealthSummary>, i: nat)
    requires i < |trace| && trace[i].Observed?
  {
    && i > 0 && trace[i - 1].Apply? && !trace[i - 1].rollback && trace[i - 1].answer.Done?
    && trace[i].versionID == trace[i - 1].version.versionID && trace[i].health == health
  }

  lemma LooksWithin(input: RolloutInput, answers: RolloutAnswers, version: DeploymentVersion,
                    savepoint: Option<SavepointRecord>, leaseID: string)
    ensures var trace := ApplyAndGate(input, answers, version, savepoint, leaseID).trace;
            forall i | 0 <= i < |trace| && trace[i].Observed? :: LooksAtApplied(trace, answers.health, i)
  {
    hide EvaluateHealth;
  }

  lemma LooksInFrame(before: seq<Event>, middle: seq<Event>, after: seq<Event>, health: Option<HealthSummary>)
    requires forall k | 0 <= k < |before| :: !before[k].Observed?
    requires forall k | 0 <= k < |after| :: !after[k].Observed?
    requires forall i | 0 <= i < |middle| && middle[i].Observed? :: LooksAtApplied(middle, health, i)
    ensures var trace := before + middle + after;
            forall i | 0 <= i < |trace| && trace[i].Observed? :: LooksAtApplied(trace, health, i)
  {
    var trace := before + middle + after;
    var n := |before|;
    assert forall k | 0 <= k < n :: trace[k] == before[k];
    assert forall k | n + |middle| <= k < |trace| :: trace[k] == after[k - n - |middle|];
    assert forall k | n <= k < n + |middle| :: trace[k] == middle[k - n];
    forall i | 0 <= i < |trace| && trace[i].Observed? ensures LooksAtApplied(trace, health, i) {
      assert LooksAtApplied(middle, health, i - n);
      assert trace[i - 1] == middle[i - n - 1];
    }
  }

  lemma LeasedLooks(input: RolloutInput, answers: RolloutAnswers, leaseID: string)
    ensures var trace := Leased(input, answers, leaseID).trace;
            forall i | 0 <= i < |trace| && trace[i].Observed? :: LooksAtApplied(trace, answers.health, i)
  {
    var version := BuildVersion(NextID(input.current), input.target, answers.createdAt);
    hide ApplyAndGate, LooksAtApplied, Classification;
    if Classification(input).requiresSavepoint && input.current.Some? {
      var (events, record) := SavepointRun(answers.savepoint);
      if record.Some? {
        var version' := version.(savepointURI := record.value.uri);
        LooksWithin(input, answers, version', record, leaseID);
        var rest := ApplyAndGate(input, answers, version', record, leaseID).trace;
        LooksInFrame(events, rest, [], answers.health);
        assert events + rest + [] == events + rest;
      }
    } else {
      LooksWithin(input, answers, version, None, leaseID);
    }
  }

  /** So a rollout is judged by the health of what it applied. */
  lemma JudgedByApplied(input: RolloutInput, answers: RolloutAnswers)
    ensures var trace := RunRollout(input, answers).trace;
            forall i | 0 <= i < |trace| && trace[i].Observed? :: LooksAtApplied(trace, answers.health, i)
  {
    hide Leased, LooksAtApplied, Classification, AdmissionOf;
    if answers.validationReached && AdmissionOf(input).None? {
      if !Classification(input).requiresCapacityLease {
        LeasedLooks(input, answers, "");
        var rest := Leased(input, answers, "").trace;
        LooksInFrame([Validated(true)], rest, [], answers.health);
        assert [Validated(true)] + rest + [] == [Validated(true)] + rest;
      } else if answers.lease.Some? {
        var id := answers.lease.value;
        LeasedLooks(input, answers, id);
        LooksInFrame([Validated(true), LeaseGranted(id)], Leased(input, answers, id).trace, [LeaseReleased(id)],
                     answers.health);
      }
    }
  }

  /** What is asked around the applies: nothing more once the validation, the lease or the savepoint
      has failed, but a granted lease is released. */
  lemma EarlyExits(input: RolloutInput, answers: RolloutAnswers)
    ensures var trace := RunRollout(input, answers).trace;
            var admitted := answers.validationReached && AdmissionOf(input).None?;
            var leased := Classification(input).requiresCapacityLease;
            var saving := Classification(input).requiresSavepoint && input.current.Some?;
      && (!admitted ==> trace == [Validated(false)])
      && (admitted && leased && answers.lease.None? ==> trace == [Validated(true), LeaseRefused])
      && (admitted && saving && !answers.savepoint.triggered ==>
            && (!leased ==> trace == [Validated(true), SavepointTriggered(false)])
            && (leased && answers.lease.Some? ==>
                  trace == [Validated(true), LeaseGranted(answers.lease.value), SavepointTriggered(false),
                            LeaseReleased(answers.lease.value)]))
      && (admitted && saving && answers.savepoint.triggered && answers.savepoint.record.None? ==>
            && (!leased ==> trace == [Validated(true), SavepointTriggered(true), SavepointObserved(None)])
            && (leased && answers.lease.Some? ==>
                  trace == [Validated(true), LeaseGranted(answers.lease.value), SavepointTriggered(true),
                            SavepointObserved(None), LeaseReleased(answers.lease.value)]))
  {
    hide ApplyAndGate, Classification, AdmissionOf;
  }

  // ----- When a rollout succeeds, and with what -----

  /** What has to happen before the gate is asked, in any order. */
  predicate GateReached(input: RolloutInput, answers: RolloutAnswers) {
    && answers.validationReached && AdmissionOf(input).None?
    && (Classification(input).requiresCapacityLease ==> answers.lease.Some?)
    && (Classification(input).requiresSavepoint && input.current.Some? ==>
          answers.savepoint.triggered && answers.savepoint.record.Some?)
    && answers.apply.Done? && answers.health.Some?
  }

  predicate AllGoesWell(input: RolloutInput, answers: RolloutAnswers) {
    GateReached(input, answers) && PassesGate(answers.health.value, input.policy)
  }

  lemma ApplyAndGateSucceeds(input: RolloutInput, answers: RolloutAnswers, version: DeploymentVersion,
                             savepoint: Option<SavepointRecord>, leaseID: string)
    ensures var outcome := ApplyAndGate(input, answers, version, savepoint, leaseID).outcome;
      && (outcome.Ok? <==>
            answers.apply.Done? && answers.health.Some? && PassesGate(answers.health.value, input.policy))
      && (outcome.Ok? ==>
            outcome.value == RolloutResult(
              version.(observedGeneration := answers.apply.generation,
                  health := answers.health.value.(healthy := true)),
              savepoint, leaseID))
  {
    hide EvaluateHealth;
  }

  /** A rollout succeeds exactly when all of that goes right; then the result is the target as the next
      version with what was observed of it, the savepoint taken, and the lease that was held. */
  lemma RolloutSucceedsExactly(input: RolloutInput, answers: RolloutAnswers)
    ensures var outcome := RunRollout(input, answers).outcome;
            var saved := Classification(input).requiresSavepoint && input.current.Some?;
      && (outcome.Ok? <==> AllGoesWell(input, answers))
      && (outcome.Ok? ==>
            && outcome.value.savepoint == (if saved then answers.savepoint.record else None)
            && outcome.value.leaseID == (if Classification(input).requiresCapacityLease then answers.lease.value
                else "")
            && outcome.value.version.createdAt == answers.createdAt
            && outcome.value.version.observedGeneration == answers.apply.generation
            && outcome.value.version.health == answers.health.value.(healthy := true)
            && outcome.value.version.savepointURI == if saved then answers.savepoint.record.value.uri else "")
  {
    var version := BuildVersion(NextID(input.current), input.target, answers.createdAt);
    var record := SavepointRun(answers.savepoint).1;
    var leaseID := if Classification(input).requiresCapacityLease
        && answers.lease.Some? then answers.lease.value else "";
    ApplyAndGateSucceeds(input, answers, version, None, leaseID);
    if record.Some? {
      ApplyAndGateSucceeds(input, answers, version.(savepointURI := record.value.uri), record, leaseID);
    }
    hide ApplyAndGate, Classification, AdmissionOf, PassesGate;
  }

  lemma ApplyAndGateFails(input: RolloutInput, answers: RolloutAnswers, version: DeploymentVersion,
                          savepoint: Option<SavepointRecord>, leaseID: string)
    ensures var outcome := ApplyAndGate(input, answers, version, savepoint, leaseID).outcome;
            outcome.Err? ==>
              if !answers.apply.Done? || answers.health.None? then outcome.error == ActivityFailed
              else GateError(input, answers, outcome.error)
  {
    hide EvaluateHealth;
  }

  /** The gate failed: at the first version, or with the previous version restored, or not even that. */
  predicate GateError(input: RolloutInput, answers: RolloutAnswers, error: RolloutError)
    requires answers.health.Some?
  {
    var failure := EvaluateHealth(answers.health.value, input.policy);
    && failure.Some?
    && (input.current.None? ==> error == InitialGateFailed(failure.value))
    && (input.current.Some? && answers.restore.Done? ==> error == Restored(failure.value))
    && (input.current.Some? && !answers.restore.Done? ==> error == RestoreFailed(failure.value))
  }

  /** What a failed rollout reports: the rule that was broken, the gate, or some activity. */
  lemma RolloutErrorMeans(input: RolloutInput, answers: RolloutAnswers)
    ensures var outcome := RunRollout(input, answers).outcome;
            outcome.Err? ==>
              if GateReached(input, answers) then GateError(input, answers, outcome.error)
              else if answers.validationReached && AdmissionOf(input).Some? then
                outcome.error == NotAdmitted(AdmissionOf(input).value)
              else outcome.error == ActivityFailed
  {
    var version := BuildVersion(NextID(input.current), input.target, answers.createdAt);
    var record := SavepointRun(answers.savepoint).1;
    var leaseID := if Classification(input).requiresCapacityLease
        && answers.lease.Some? then answers.lease.value else "";
    ApplyAndGateFails(input, answers, version, None, leaseID);
    if record.Some? {
      ApplyAndGateFails(input, answers, version.(savepointURI := record.value.uri), record, leaseID);
    }
    hide ApplyAndGate, Classification, AdmissionOf, GateError;
  }
}
