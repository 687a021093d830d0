// The deployment actor as the code runs it: an object whose fields the commands update, with the
// current and the last healthy version behind pointers that may share one object. Every method
// is proved to do to the fields what module Actor says of the state as a value.
module DeploymentActor {
  import opened Wrappers
  import opened Domain
  import opened Rollout
  import opened Actor
  import RolloutWorkflow

  /** A heap-allocated version. */
  class VersionCell {
    var version: DeploymentVersion

    constructor (version: DeploymentVersion)
      ensures this.version == version
    {
      this.version := version;
    }
  }

  function Held(cell: VersionCell?): Option<DeploymentVersion>
    reads cell
  {
    if cell == null then None else Some(cell.version)
  }

  lemma NothingAsked(backend: RolloutWorkflow.Backend)
    ensures backend.Since(backend.trace, backend.runtime, [])
  {
  }

  class DeploymentActor {
    const identity: DeploymentIdentity
    var policy: Policy
    var status: ActorStatus
    var current: VersionCell?
    var lastHealthy: VersionCell?
    var versions: seq<DeploymentVersion>
    var lastSavepoint: Option<SavepointRecord>
    var operations: seq<OperationRecord>
    var processedKeys: map<string, string>
    var pending: seq<Command>
    var autoscalerFrozen: bool
    var autoscalerEnabled: bool
    var lastError: Option<OperationError>
    var eventCount: int
    var continueAfter: int
    /** How many commands have been taken off the queue since the actor was first started. */
    var takenCount: nat
    const backend: RolloutWorkflow.Backend

    ghost var executed: seq<OperationRecord>
    ghost var received: seq<Command>
    ghost var taken: seq<Command>
    ghost var history: seq<Deployed>

    /** The object as a value; the two pointers may be one. */
    ghost function State(): ActorState
      reads this, current, lastHealthy
    {
      ActorState(identity, policy, status, Held(current), Held(lastHealthy), current != null && current == lastHealthy,
                 versions, lastSavepoint, operations, processedKeys, pending, autoscalerFrozen, autoscalerEnabled,
                 lastError, eventCount, continueAfter)
    }

    ghost function AsMachine(): Machine
      reads this, current, lastHealthy, backend
    {
      Machine(State(), backend.runtime, executed, received, taken, history)
    }

    /** The state a decoded input gives, with a version object of its own behind each pointer. */
    constructor (a: ActorState, backend: RolloutWorkflow.Backend, takenCount: nat, ghost past: Machine)
      ensures State() == a.(aliased := false) && this.backend == backend && this.takenCount == takenCount
      ensures executed == past.executed && received == past.received && taken == past.taken && history == past.history
      ensures current != null ==> fresh(current)
      ensures lastHealthy != null ==> fresh(lastHealthy)
    {
      identity, policy, status := a.identity, a.policy, a.status;
      versions, lastSavepoint, operations := a.versions, a.lastSavepoint, a.operations;
      processedKeys, pending := a.processedKeys, a.pending;
      autoscalerFrozen, autoscalerEnabled, lastError := a.autoscalerFrozen, a.autoscalerEnabled, a.lastError;
      eventCount, continueAfter := a.eventCount, a.continueAfter;
      this.backend, this.takenCount := backend, takenCount;
      current, lastHealthy := null, null;
      executed, received, taken, history := past.executed, past.received, past.taken, past.history;
      new;
      if a.current.Some? {
        current := new VersionCell(a.current.value);
      }
      if a.lastHealthy.Some? {
        lastHealthy := new VersionCell(a.lastHealthy.value);
      }
    }

    /** What the parent makes of the child's result. */
    method TakeResult(result: Result<RolloutResult, RolloutError>, approved: bool, command: Command,
                      record: OperationRecord, ghost trace: seq<Event>)
      returns (record': OperationRecord, error: Option<OperationError>, ghost deployed: Option<Deployed>)
      modifies this`current, this`lastHealthy, this`versions, this`lastSavepoint, this`autoscalerEnabled
      ensures current != old(current) ==> fresh(current)
      ensures lastHealthy != old(lastHealthy) ==> fresh(lastHealthy)
      ensures AfterChild(old(State()), approved, command, record, RolloutRun(trace, result))
           == Outcome(State(), record', trace, error, deployed)
    {
      AfterChildOnce(State(), approved, command, record, RolloutRun(trace, result));
      hide AfterChild, Advanced;
      if result.Err? {
        return record, Some(RolloutFailed(result.error)), None;
      }
      var outcome := result.value;
      record' := record;
      if outcome.leaseID != "" {
        record' := record'.(leaseID := outcome.leaseID);
      }
      record' := record'.(note := VersionHealthy(outcome.version.versionID));
      deployed := Some(Deployed(outcome.version, State().current, approved, command));
      error := None;
      Advance(outcome);
    }

    /** The result's savepoint and version become the actor's; both pointers get the new object. */
    method Advance(outcome: RolloutResult)
      modifies this`current, this`lastHealthy, this`versions, this`lastSavepoint, this`autoscalerEnabled
      ensures fresh(current) && lastHealthy == current
      ensures State() == Advanced(old(State()), outcome)
    {
      if outcome.savepoint.Some? {
        lastSavepoint := outcome.savepoint;
      }
      var cell := new VersionCell(outcome.version);
      current := cell;
      lastHealthy := cell;
      versions := versions + [cell.version];
      autoscalerEnabled := cell.version.spec.autoscalerEnabled;
    }

    method Deploy(target: Option<DeploymentSpec>, approved: bool, command: Command, record: OperationRecord,
                  answers: Answers)
      returns (record': OperationRecord, error: Option<OperationError>, ghost deployed: Option<Deployed>)
      modifies this`current, this`lastHealthy, this`versions, this`lastSavepoint, this`autoscalerEnabled, backend
      ensures current != old(current) ==> fresh(current)
      ensures lastHealthy != old(lastHealthy) ==> fresh(lastHealthy)
      ensures var o := Actor.Deploy(old(State()), target, approved, command, record, answers);
              && o == Outcome(State(), record', o.trace, error, deployed)
              && backend.Since(old(backend.trace), old(backend.runtime), o.trace)
    {
      hide RunRollout, Runtime, AfterChild;
      NothingAsked(backend);
      if target.None? {
        return record, Some(TargetSpecMissing), None;
      }
      record' := record.(childWorkflowID := ChildID("flink-rollout/", identity, command.operationID));
      if !answers.childStarts {
        return record', Some(ChildNotStarted), None;
      }
      var input := RolloutInput(identity, Held(current), target.value, policy, command.operationID, approved,
          command.incident);
      assert input == InputOf(State(), target.value, approved, command);
      var result := RolloutWorkflow.RunRolloutWorkflow(input, answers.rollout, backend);
      ghost var run := RunRollout(input, answers.rollout);
      assert run == RolloutRun(run.trace, result);
      RolloutEventsKept(State(), approved, command, record', run);
      record', error, deployed := TakeResult(result, approved, command, record', run.trace);
    }

    method TakeSavepoint(command: Command, record: OperationRecord, answers: Answers)
      returns (record': OperationRecord, error: Option<OperationError>)
      modifies this`lastSavepoint, backend
      ensures var o := Actor.TakeSavepoint(old(State()), command, record, answers);
              && o == Outcome(State(), record', o.trace, error, None)
              && backend.Since(old(backend.trace), old(backend.runtime), o.trace)
    {
      hide Runtime;
      NothingAsked(backend);
      ghost var trace0, runtime0 := backend.trace, backend.runtime;
      if current == null {
        return record, Some(NoVersionYet);
      }
      record' := record.(childWorkflowID := ChildID("flink-savepoint/", identity, command.operationID));
      if !answers.childStarts {
        return record', Some(ChildNotStarted);
      }
      var result := RolloutWorkflow.Savepoint(answers.savepoint, backend, trace0, runtime0, []);
      assert [] + SavepointRun(answers.savepoint).0 == SavepointRun(answers.savepoint).0;
      if result.None? {
        return record', Some(ActivityError);
      }
      lastSavepoint := result;
      if result.value.uri != "" {
        record' := record'.(note := SavepointAt(result.value.uri));
      } else {
        record' := record'.(note := NoNote);
      }
      error := None;
    }

    method SetJobState(desired: string, answers: Answers) returns (error: Option<OperationError>)
      modifies backend
      ensures error == Actor.SetJobState(State(), desired, answers).1
      ensures backend.Since(old(backend.trace), old(backend.runtime), Actor.SetJobState(State(), desired, answers).0)
    {
      NothingAsked(backend);
      if current == null {
        return Some(NoVersionYet);
      }
      backend.Request(JobStateSet(desired, answers.jobStateSet), backend.trace, backend.runtime, []);
      assert [] + [JobStateSet(desired, answers.jobStateSet)] == [JobStateSet(desired, answers.jobStateSet)];
      error := if answers.jobStateSet then None else Some(ActivityError);
    }

    /** Writes through the pointer to the current version: if the last healthy one is the same
        object, it changes too. */
    method ResumeJob(record: OperationRecord, answers: Answers) returns (error: Option<OperationError>)
      modifies current, backend
      ensures var o := Actor.ResumeJob(old(State()), record, answers);
              && o == Outcome(State(), record, o.trace, error, None)
              && backend.Since(old(backend.trace), old(backend.runtime), o.trace)
    {
      hide Runtime;
      ghost var trace0, runtime0 := backend.trace, backend.runtime;
      ghost var first := Actor.SetJobState(State(), "RUNNING", answers).0;
      error := SetJobState("RUNNING", answers);
      if error.Some? {
        return;
      }
      backend.Request(Observed(current.version.versionID, answers.health), trace0, runtime0, first);
      if answers.health.None? {
        return Some(ActivityError);
      }
      current.version := current.version.(health := answers.health.value);
    }

    /** Rollback's search, front to back. */
    method FindVersion(id: int) returns (found: Option<DeploymentVersion>)
      ensures found == Actor.FindVersion(versions, id)
    {
      for i := 0 to |versions|
        invariant Actor.FindVersion(versions, id) == Actor.FindVersion(versions[i..], id)
      {
        if versions[i].versionID == id {
          return Some(versions[i]);
        }
        assert versions[i..][1..] == versions[i + 1..];
      }
      found := None;
    }

    method Rollback(command: Command, record: OperationRecord, answers: Answers)
      returns (record': OperationRecord, error: Option<OperationError>, ghost deployed: Option<Deployed>)
      modifies this`current, this`lastHealthy, this`versions, this`lastSavepoint, this`autoscalerEnabled, backend
      ensures current != old(current) ==> fresh(current)
      ensures lastHealthy != old(lastHealthy) ==> fresh(lastHealthy)
      ensures var o := Actor.Rollback(old(State()), command, record, answers);
              && o == Outcome(State(), record', o.trace, error, deployed)
              && backend.Since(old(backend.trace), old(backend.runtime), o.trace)
    {
      hide Actor.Deploy, Runtime;
      NothingAsked(backend);
      var target := FindVersion(command.targetVersion);
      if target.None? && lastHealthy != null {
        target := Some(lastHealthy.version);
      }
      if target.None? {
        return record, Some(RollbackTargetMissing), None;
      }
      assert RollbackSpec(State(), command.targetVersion) == Some(target.value.spec);
      record', error, deployed := Deploy(Some(target.value.spec), true, command, record, answers);
    }

    method Scale(command: Command, record: OperationRecord, answers: Answers)
      returns (record': OperationRecord, error: Option<OperationError>, ghost deployed: Option<Deployed>)
      modifies this`current, this`lastHealthy, this`versions, this`lastSavepoint, this`autoscalerEnabled, backend
      ensures current != old(current) ==> fresh(current)
      ensures lastHealthy != old(lastHealthy) ==> fresh(lastHealthy)
      ensures var o := Actor.Scale(old(State()), command, record, answers);
              && o == Outcome(State(), record', o.trace, error, deployed)
              && backend.Since(old(backend.trace), old(backend.runtime), o.trace)
    {
      hide Actor.Deploy, Runtime;
      NothingAsked(backend);
      if current == null {
        return record, Some(NoVersionYet), None;
      }
      if autoscalerEnabled && !autoscalerFrozen {
        return record, Some(ScaleRejected), None;
      }
      var spec := current.version.spec.(parallelism := command.parallelism);
      record', error, deployed := Deploy(Some(spec), command.approved, command, record, answers);
    }

    /** The switch over the command types. */
    method Perform(command: Command, record: OperationRecord, answers: Answers)
      returns (record': OperationRecord, error: Option<OperationError>, ghost deployed: Option<Deployed>)
      modifies this`current, this`lastHealthy, this`versions, this`lastSavepoint, this`autoscalerEnabled,
               this`autoscalerFrozen, this`status, current, backend
      ensures current != old(current) ==> fresh(current)
      ensures lastHealthy != old(lastHealthy) ==> fresh(lastHealthy)
      ensures var o := Actor.Perform(old(State()), command, record, answers);
              && o == Outcome(State(), record', o.trace, error, deployed)
              && backend.Since(old(backend.trace), old(backend.runtime), o.trace)
    {
      hide Actor.Deploy, Actor.TakeSavepoint, Actor.ResumeJob, Actor.Rollback, Actor.Scale, Runtime;
      NothingAsked(backend);
      record', error, deployed := record, None, None;
      match command.kind
      case DeployVersion => record', error, deployed := Deploy(command.targetSpec, command.approved, command, record,
          answers);
      case RequestSavepoint => record', error := TakeSavepoint(command, record, answers);
      case Suspend =>
        error := SetJobState("SUSPENDED", answers);
        if error.None? {
          status := Suspended;
        }
      case Resume => error := ResumeJob(record, answers);
      case RollbackToVersion => record', error, deployed := Rollback(command, record, answers);
      case ScaleTo => record', error, deployed := Scale(command, record, answers);
      case EnableAutoscaler => autoscalerEnabled := true;
      case FreezeAutoscaler => autoscalerFrozen := true;
      case ContinueAsNew =>
      case Unsupported(_) => error := Some(UnsupportedCommand);
    }

    /** processCommand: skip a remembered key; otherwise perform, record, remember and audit. */
    method ProcessCommand(command: Command, answers: Answers)
      modifies this`current, this`lastHealthy, this`versions, this`lastSavepoint, this`autoscalerEnabled,
               this`autoscalerFrozen, this`status, this`lastError, this`operations, this`processedKeys,
               this`executed, this`history, current, backend
      ensures current != old(current) ==> fresh(current)
      ensures lastHealthy != old(lastHealthy) ==> fresh(lastHealthy)
      ensures if Duplicate(old(State()), command)
              then State() == old(State()) && backend.runtime == old(backend.runtime)
                   && executed == old(executed) && history == old(history)
              else var o := Execute(old(State()), command, answers);
                   && State() == o.state
                   && backend.runtime == Runtime(old(backend.runtime), o.trace)
                   && executed == old(executed) + [o.record]
                   && history == (if o.deployed.Some? then old(history) + [o.deployed.value] else old(history))
    {
      hide Actor.Perform, Settle, Runtime;
      var key := Key(command);
      if key in processedKeys {
        return;
      }
      var record := OpenRecord(command, answers);
      ghost var trace0, runtime0 := backend.trace, backend.runtime;
      ghost var begun := State().(status := Operating, lastError := None);
      status, lastError := Operating, None;
      assert State() == begun;
      var error: Option<OperationError>;
      ghost var deployed: Option<Deployed>;
      record, error, deployed := Perform(command, record, answers);
      ghost var o := Actor.Perform(begun, command, OpenRecord(command, answers), answers);
      CloseCommand(command, answers, record, error, deployed, trace0, runtime0, o);
    }

    /** Status, error, history and key after a command. */
    method KeepRecord(key: string, operationID: string, record: OperationRecord, error: Option<OperationError>)
      modifies this`status, this`lastError, this`operations, this`processedKeys
      ensures var a := old(State());
              State() == a.(status := if error.Some? then ActorFailed else if a.status == Suspended then Suspended
                  else Idle,
                            lastError := error, operations := a.operations + [record],
                            processedKeys := a.processedKeys[key := operationID])
    {
      if error.Some? {
        status := ActorFailed;
      } else if status != Suspended {
        status := Idle;
      }
      lastError := error;
      operations := operations + [record];
      processedKeys := processedKeys[key := operationID];
    }

    /** The end of processCommand, whatever the command did. */
    method CloseCommand(command: Command, answers: Answers, begun: OperationRecord, error: Option<OperationError>,
                        ghost deployed: Option<Deployed>, ghost trace0: seq<Event>,
                        ghost runtime0: Option<DeploymentVersion>,
                        ghost o: Outcome)
      requires o == Outcome(State(), begun, o.trace, error, deployed)
      requires backend.Since(trace0, runtime0, o.trace)
      modifies this`status, this`lastError, this`operations, this`processedKeys, this`executed, this`history, backend
      ensures var closed := Settle(command, answers, o);
              && State() == closed.state
              && backend.runtime == Runtime(runtime0, closed.trace)
              && executed == old(executed) + [closed.record]
              && history == if closed.deployed.Some? then old(history) + [closed.deployed.value] else old(history)
    {
      hide Runtime, CloseRecord, Key;
      var record := CloseRecord(begun, error, answers.done);
      KeepRecord(Key(command), command.operationID, record, error);
      backend.Request(Audited(command.operationID), trace0, runtime0, o.trace);
      executed := executed + [record];
      history := if deployed.Some? then history + [deployed.value] else history;
    }

    /** The loop of compact: the keys of these operations, a later one replacing an earlier one. */
    method RebuildKeys(operations: seq<OperationRecord>) returns (keys: map<string, string>)
      ensures keys == KeyMap(operations)
    {
      keys := map[];
      for i := 0 to |operations|
        invariant keys == KeyMap(operations[..i])
      {
        assert operations[..i + 1][..i] == operations[..i];
        keys := keys[operations[i].idempotencyKey := operations[i].operationID];
      }
      assert operations[..|operations|] == operations;
    }

    /** compact: keep the last fifty operations and versions, and rebuild the keys. */
    method Compact()
      modifies this`operations, this`versions, this`processedKeys
      ensures State() == Actor.Compact(old(State()))
    {
      hide KeyMap;
      ghost var before := State();
      if |operations| > HISTORY_LIMIT {
        operations := operations[|operations| - HISTORY_LIMIT..];
      }
      if |versions| > HISTORY_LIMIT {
        versions := versions[|versions| - HISTORY_LIMIT..];
      }
      processedKeys := RebuildKeys(operations);
      assert State() == before.(operations := operations, versions := versions, processedKeys := processedKeys);
    }

    method Normalize()
      modifies this`policy, this`continueAfter
      ensures State() == Actor.Normalize(old(State()))
    {
      if policy == ZERO_POLICY {
        policy := DefaultPolicy(identity.environment);
      }
      if continueAfter <= 0 {
        continueAfter := 500;
      }
    }

    /** What JSON writes down and reads back. */
    method Encode() returns (a: ActorState)
      ensures a == State().(aliased := false)
    {
      a := ActorState(identity, policy, status, Held(current), Held(lastHealthy), false, versions, lastSavepoint,
                      operations, processedKeys, pending, autoscalerFrozen, autoscalerEnabled, lastError,
                      eventCount, continueAfter);
    }

    /** Continue-as-new: the next generation is a new object with version objects of its own. */
    method ContinueAsNew() returns (next: DeploymentActor)
      modifies this`eventCount, this`operations, this`versions, this`processedKeys
      ensures fresh(next) && next.backend == backend && next.takenCount == old(takenCount)
      ensures next.current != null ==> fresh(next.current)
      ensures next.lastHealthy != null ==> fresh(next.lastHealthy)
      ensures next.State() == NextGeneration(old(State()))
      ensures next.executed == old(executed) && next.received == old(received)
      ensures next.taken == old(taken) && next.history == old(history)
    {
      hide Actor.Compact, Actor.Normalize;
      ghost var zeroed := State().(eventCount := 0);
      eventCount := 0;
      assert State() == zeroed;
      Compact();
      var encoded := Encode();
      next := NewGeneration(encoded);
    }

    /** The workflow starts over from what was written down, and normalizes it. */
    method NewGeneration(encoded: ActorState) returns (next: DeploymentActor)
      ensures fresh(next) && next.backend == backend && next.takenCount == takenCount
      ensures next.current != null ==> fresh(next.current)
      ensures next.lastHealthy != null ==> fresh(next.lastHealthy)
      ensures next.State() == Actor.Normalize(encoded.(aliased := false))
      ensures next.executed == executed && next.received == received && next.taken == taken && next.history == history
    {
      hide Actor.Normalize;
      next := new DeploymentActor(encoded, backend, takenCount, AsMachine());
      next.Normalize();
    }

    method Pop() returns (next: Command)
      requires pending != []
      modifies this`pending, this`takenCount, this`taken
      ensures next == old(pending)[0] && takenCount == old(takenCount) + 1 && taken == old(taken) + [next]
      ensures State() == old(State()).(pending := old(pending)[1..])
    {
      next := pending[0];
      pending := pending[1..];
      takenCount := takenCount + 1;
      taken := taken + [next];
    }

    /** Take the first command off the queue and process it. */
    method ProcessFirst(answers: Answers) returns (next: Command)
      requires pending != []
      modifies this, current, backend
      ensures current != old(current) ==> fresh(current)
      ensures lastHealthy != old(lastHealthy) ==> fresh(lastHealthy)
      ensures next == old(pending)[0] && takenCount == old(takenCount) + 1 && taken == old(taken) + [next]
      ensures Processed(old(AsMachine()), answers, AsMachine())
    {
      hide Execute, Duplicate, Runtime, Processed;
      ghost var m := AsMachine();
      next := Pop();
      ProcessCommand(next, answers);
      ProcessedIs(m, answers, AsMachine());
    }

    /** One turn of the inner loop, up to the check whether the generation is over. */
    method TakeOne(answers: Answers) returns (next: Command)
      requires pending != []
      modifies this, current, backend
      ensures current != old(current) ==> fresh(current)
      ensures lastHealthy != old(lastHealthy) ==> fresh(lastHealthy)
      ensures next == old(pending)[0] && takenCount == old(takenCount) + 1 && taken == old(taken) + [next]
      ensures AsMachine() == Actor.TakeOne(old(AsMachine()), answers)
    {
      hide Processed, Actor.TakeOne;
      ghost var m := AsMachine();
      next := ProcessFirst(answers);
      ghost var processed := AsMachine();
      TakenAndProcessed(m, answers, processed);
      eventCount := eventCount + 1;
      assert AsMachine() == processed.(actor := processed.actor.(eventCount := processed.actor.eventCount + 1));
    }

    /** One signal: queue the command, then work the queue off, until it is empty or this
        generation is over; `next` is the actor that goes on. */
    method Receive(command: Command, oracle: nat -> Answers) returns (next: DeploymentActor)
      requires takenCount == |taken|
      modifies this, current, backend
      ensures next.AsMachine() == Actor.Receive(old(AsMachine()), command, oracle)
      ensures next.takenCount == |next.taken| && next.backend == backend && (next == this || fresh(next))
    {
      hide Actor.TakeOne, NextGeneration, Runtime;
      received := received + [command];
      pending := pending + [command];
      ghost var goal := Drain(AsMachine(), oracle);
      assert goal == Actor.Receive(old(AsMachine()), command, oracle);
      while |pending| > 0
        invariant current != old(current) ==> fresh(current)
        invariant takenCount == |taken|
        invariant goal == Drain(AsMachine(), oracle)
        decreases |pending|
      {
        ghost var m := AsMachine();
        var answers := oracle(takenCount);
        var first := TakeOne(answers);
        if first.kind.ContinueAsNew? || eventCount >= continueAfter {
          next := ContinueAsNew();
          return;
        }
      }
      next := this;
    }
  }

  /** A new actor and its past: none. */
  method StartActor(identity: DeploymentIdentity, policy: Policy, continueAfter: int) returns (actor: DeploymentActor)
    ensures fresh(actor) && actor.takenCount == |actor.taken|
    ensures actor.AsMachine() == Initial(identity, policy, continueAfter)
  {
    var backend := new RolloutWorkflow.Backend();
    actor := new DeploymentActor(Start(identity, policy, continueAfter), backend, 0,
        Initial(identity, policy, continueAfter));
  }

  /** The first command is off the queue and, unless it was a duplicate, executed. */
  ghost predicate Processed(m: Machine, answers: Answers, processed: Machine) {
    && m.actor.pending != []
    && processed.received == m.received && processed.taken == m.taken + [m.actor.pending[0]]
    && var next := m.actor.pending[0]; var a := m.actor.(pending := m.actor.pending[1..]);
       if Duplicate(a, next)
       then processed.actor == a && processed.runtime == m.runtime
            && processed.executed == m.executed && processed.history == m.history
       else var o := Execute(a, next, answers);
            && processed.actor == o.state && processed.runtime == Runtime(m.runtime, o.trace)
            && processed.executed == m.executed + [o.record]
            && processed.history == (if o.deployed.Some? then m.history + [o.deployed.value] else m.history)
  }

  lemma ProcessedIs(m: Machine, answers: Answers, processed: Machine)
    requires m.actor.pending != []
    requires processed.received == m.received && processed.taken == m.taken + [m.actor.pending[0]]
    requires var next := m.actor.pending[0]; var a := m.actor.(pending := m.actor.pending[1..]);
             if Duplicate(a, next)
             then processed.actor == a && processed.runtime == m.runtime
                  && processed.executed == m.executed && processed.history == m.history
             else var o := Execute(a, next, answers);
                  && processed.actor == o.state && processed.runtime == Runtime(m.runtime, o.trace)
                  && processed.executed == m.executed + [o.record]
                  && processed.history == (if o.deployed.Some? then m.history + [o.deployed.value] else m.history)
    ensures Processed(m, answers, processed)
  {
    hide Execute, Duplicate, Runtime;
  }

  /** Counting the command completes the step. */
  lemma TakenAndProcessed(m: Machine, answers: Answers, processed: Machine)
    requires Processed(m, answers, processed)
    ensures Actor.TakeOne(m, answers)
         == processed.(actor := processed.actor.(eventCount := processed.actor.eventCount + 1))
  {
    hide Perform, Runtime;
    var a := m.actor.(pending := m.actor.pending[1..]);
    if !Duplicate(a, m.actor.pending[0]) {
      QueueKept(a, m.actor.pending[0], answers);
      hide Settle;
    }
  }

  lemma QueueKept(a: ActorState, command: Command, answers: Answers)
    requires !Duplicate(a, command)
    ensures Execute(a, command, answers).state.pending == a.pending
  {
    PerformKeepsQueue(a.(status := Operating, lastError := None), command, OpenRecord(command, answers), answers);
    hide Perform;
  }

  lemma DeployKeepsQueue(a: ActorState, target: Option<DeploymentSpec>, approved: bool, command: Command,
                         record: OperationRecord, answers: Answers)
    ensures Actor.Deploy(a, target, approved, command, record, answers).state.pending == a.pending
  {
    hide RunRollout;
  }

  lemma PerformKeepsQueue(a: ActorState, command: Command, record: OperationRecord, answers: Answers)
    ensures Actor.Perform(a, command, record, answers).state.pending == a.pending
  {
    hide Actor.Deploy, SavepointRun, RollbackSpec;
    DeployKeepsQueue(a, command.targetSpec, command.approved, command, record, answers);
    DeployKeepsQueue(a, RollbackSpec(a, command.targetVersion), true, command, record, answers);
    if a.current.Some? {
      DeployKeepsQueue(a, Some(a.current.value.spec.(parallelism := command.parallelism)), command.approved, command,
          record, answers);
    }
  }

  lemma AfterChildOnce(a: ActorState, approved: bool, command: Command, record: OperationRecord, run: RolloutRun)
    ensures run.outcome.Err? ==>
      AfterChild(a, approved, command, record, run) == Outcome(a, record, run.trace,
          Some(RolloutFailed(run.outcome.error)), None)
    ensures run.outcome.Ok? ==>
      var result := run.outcome.value;
      AfterChild(a, approved, command, record, run) == Outcome(
        Advanced(a, result), Annotated(record, result), run.trace, None,
            Some(Deployed(result.version, a.current, approved, command)))
  {
  }

  function Advanced(a: ActorState, result: RolloutResult): ActorState {
    a.(lastSavepoint := if result.savepoint.Some? then result.savepoint else a.lastSavepoint,
       current := Some(result.version), lastHealthy := Some(result.version), aliased := true,
       versions := a.versions + [result.version], autoscalerEnabled := result.version.spec.autoscalerEnabled)
  }

  function Annotated(record: OperationRecord, result: RolloutResult): OperationRecord {
    record.(leaseID := if result.leaseID != "" then result.leaseID else record.leaseID,
            note := VersionHealthy(result.version.versionID))
  }

  lemma RolloutEventsKept(a: ActorState, approved: bool, command: Command, record: OperationRecord, run: RolloutRun)
    ensures AfterChild(a, approved, command, record, run).trace == run.trace
  {
  }
}
