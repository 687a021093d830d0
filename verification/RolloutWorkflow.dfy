// The rollout workflow as the code runs it: activities requested one after another, the result
// filled in as they answer, early returns on failure, and a deferred lease release.
module RolloutWorkflow {
  import opened Wrappers
  import opened Domain
  import opened Rollout

  /** The outside world: what was asked of it, and what the runtime runs. */
  class Backend {
    var trace: seq<Event>
    var runtime: Option<DeploymentVersion>

    constructor ()
      ensures trace == [] && runtime == None
    {
      trace, runtime := [], None;
    }

    /** The backend since an earlier point: the events that came after it, and their effect. */
    ghost predicate Since(trace0: seq<Event>, runtime0: Option<DeploymentVersion>, events: seq<Event>)
      reads this
    {
      trace == trace0 + events && runtime == Runtime(runtime0, events)
    }

    method Request(event: Event, ghost trace0: seq<Event>, ghost runtime0: Option<DeploymentVersion>,
                   ghost events: seq<Event>)
      requires Since(trace0, runtime0, events)
      modifies this
      ensures Since(trace0, runtime0, events + [event])
    {
      RuntimeNext(runtime0, events, event);
      trace := trace + [event];
      if event.Apply? && !event.answer.FailedBefore? {
        runtime := Some(event.version);
      }
    }
  }

  /** SavepointWorkflow. */
  method Savepoint(answers: SavepointAnswers, backend: Backend, ghost trace0: seq<Event>,
                   ghost runtime0: Option<DeploymentVersion>, ghost events: seq<Event>)
    returns (record: Option<SavepointRecord>)
    requires backend.Since(trace0, runtime0, events)
    modifies backend
    ensures record == SavepointRun(answers).1
    ensures backend.Since(trace0, runtime0, events + SavepointRun(answers).0)
  {
    backend.Request(SavepointTriggered(answers.triggered), trace0, runtime0, events);
    if !answers.triggered {
      return None;
    }
    backend.Request(SavepointObserved(answers.record), trace0, runtime0, events + [SavepointTriggered(true)]);
    assert events + SavepointRun(answers).0 == events + [SavepointTriggered(true)]
        + [SavepointObserved(answers.record)];
    record := answers.record;
  }

  /** From the first apply to the end of the gate. */
  method ApplyObserveGate(input: RolloutInput, answers: RolloutAnswers, version: DeploymentVersion,
                          savepoint: Option<SavepointRecord>,
                          leaseID: string, backend: Backend, ghost trace0: seq<Event>,
                          ghost runtime0: Option<DeploymentVersion>, ghost events: seq<Event>)
    returns (r: Result<RolloutResult, RolloutError>)
    requires backend.Since(trace0, runtime0, events)
    modifies backend
    ensures r == ApplyAndGate(input, answers, version, savepoint, leaseID).outcome
    ensures backend.Since(trace0, runtime0, events + ApplyAndGate(input, answers, version, savepoint, leaseID).trace)
  {
    hide Runtime, EvaluateHealth;
    ghost var expected := ApplyAndGate(input, answers, version, savepoint, leaseID).trace;
    var result := RolloutResult(version, savepoint, leaseID);
    backend.Request(Apply(result.version, result.version.savepointURI, input.current, false, answers.apply), trace0,
        runtime0, events);
    ghost var sofar := events + [expected[0]];
    if !answers.apply.Done? {
      assert expected == [expected[0]];
      return Err(ActivityFailed);
    }
    result := result.(version := result.version.(observedGeneration := answers.apply.generation));
    backend.Request(Observed(result.version.versionID, answers.health), trace0, runtime0, sofar);
    sofar := sofar + [expected[1]];
    assert sofar == events + [expected[0], expected[1]];
    if answers.health.None? {
      return Err(ActivityFailed);
    }
    var health := answers.health.value;
    result := result.(version := result.version.(health := health));
    var failure := EvaluateHealth(health, input.policy);
    if failure.Some? {
      if input.current.None? {
        return Err(InitialGateFailed(failure.value));
      }
      var rollback := input.current.value.(createdAt := answers.restoredAt);
      if rollback.savepointURI == "" && result.savepoint.Some? {
        rollback := rollback.(savepointURI := result.savepoint.value.uri);
      }
      backend.Request(Apply(rollback, rollback.savepointURI, Some(result.version), true, answers.restore), trace0,
          runtime0, sofar);
      assert events + expected == sofar + [expected[2]];
      if !answers.restore.Done? {
        return Err(RestoreFailed(failure.value));
      }
      return Err(Restored(failure.value));
    }
    result := result.(version := result.version.(health := result.version.health.(healthy := true)));
    r := Ok(result);
  }

  /** From the savepoint on; the caller holds the lease, if one is required. */
  method WithLease(input: RolloutInput, answers: RolloutAnswers, classification: ChangeClassification, leaseID: string,
                   backend: Backend, ghost trace0: seq<Event>, ghost runtime0: Option<DeploymentVersion>,
                   ghost events: seq<Event>)
    returns (r: Result<RolloutResult, RolloutError>)
    requires classification == Classification(input)
    requires backend.Since(trace0, runtime0, events)
    modifies backend
    ensures r == Leased(input, answers, leaseID).outcome
    ensures backend.Since(trace0, runtime0, events + Leased(input, answers, leaseID).trace)
  {
    hide ApplyAndGate, Runtime, Classification;
    var version := BuildVersion(NextID(input.current), input.target, answers.createdAt);
    var savepoint: Option<SavepointRecord> := None;
    ghost var sofar := events;
    if classification.requiresSavepoint && input.current.Some? {
      savepoint := Savepoint(answers.savepoint, backend, trace0, runtime0, events);
      sofar := events + SavepointRun(answers.savepoint).0;
      if savepoint.None? {
        return Err(ActivityFailed);
      }
      version := version.(savepointURI := savepoint.value.uri);
    }
    r := ApplyObserveGate(input, answers, version, savepoint, leaseID, backend, trace0, runtime0, sofar);
    assert events + Leased(input, answers, leaseID).trace
        == sofar + ApplyAndGate(input, answers, version, savepoint, leaseID).trace;
  }

  method RunRolloutWorkflow(input: RolloutInput, answers: RolloutAnswers, backend: Backend)
    returns (r: Result<RolloutResult, RolloutError>)
    modifies backend
    ensures r == RunRollout(input, answers).outcome
    ensures backend.Since(old(backend.trace), old(backend.runtime), RunRollout(input, answers).trace)
  {
    hide Leased, Runtime, Classification, AdmissionOf, ClassifyChange, ValidateSpec;
    ghost var trace0, runtime0 := backend.trace, backend.runtime;
    assert Runtime(runtime0, []) == runtime0 by { QuietEvents(runtime0, []); }
    assert trace0 + [] == trace0;
    var classification := Classification(input);
    var admitted := answers.validationReached && AdmissionOf(input).None?;
    backend.Request(Validated(admitted), trace0, runtime0, []);
    ghost var sofar: seq<Event> := [Validated(admitted)];
    assert [] + [Validated(admitted)] == sofar;
    if !admitted {
      return Err(if !answers.validationReached then ActivityFailed else NotAdmitted(AdmissionOf(input).value));
    }
    var leaseID := "";
    if classification.requiresCapacityLease {
      backend.Request(if answers.lease.Some? then LeaseGranted(answers.lease.value) else LeaseRefused, trace0, runtime0,
          sofar);
      if answers.lease.None? {
        assert sofar + [LeaseRefused] == [Validated(true), LeaseRefused];
        return Err(ActivityFailed);
      }
      leaseID := answers.lease.value;
      sofar := sofar + [LeaseGranted(leaseID)];
    }
    r := WithLease(input, answers, classification, leaseID, backend, trace0, runtime0, sofar);
    sofar := sofar + Leased(input, answers, leaseID).trace;
    if classification.requiresCapacityLease {
      backend.Request(LeaseReleased(leaseID), trace0, runtime0, sofar);
      sofar := sofar + [LeaseReleased(leaseID)];
      assert sofar == [Validated(true), LeaseGranted(leaseID)] + Leased(input, answers, leaseID).trace
          + [LeaseReleased(leaseID)];
    } else {
      assert sofar == [Validated(true)] + Leased(input, answers, leaseID).trace;
    }
    assert sofar == RunRollout(input, answers).trace;
  }
}
