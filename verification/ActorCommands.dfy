// What each command asks of the outside world, what it writes down, and when it is refused; and what
// the actor's settings are over whole runs.
module ActorCommands {
  import opened Wrappers
  import opened Domain
  import opened Rollout
  import opened Actor
  import opened ActorTheorems
  import opened ActorGuarantees
  import opened ActorMemory
  import opened ActorHealth

  // ----- Refusals -----

  /** A manual scale is refused for that reason exactly while the autoscaler is on and not frozen. */
  lemma ScaleRejectedExactly(a: ActorState, command: Command, answers: Answers)
    requires !Duplicate(a, command) && command.kind == ScaleTo
    ensures Execute(a, command, answers).error == Some(ScaleRejected) <==>
              a.current.Some? && a.autoscalerEnabled && !a.autoscalerFrozen
    ensures Execute(a, command, answers).error == Some(NoVersionYet) <==> a.current.None?
    ensures Execute(a, command, answers).error == Some(ScaleRejected) ==>
              Execute(a, command, answers).trace == [Audited(command.operationID)]
  {
    var a' := a.(status := Operating, lastError := None);
    if a.current.Some? {
      DeployErrors(a', Some(a.current.value.spec.(parallelism := command.parallelism)), command.approved, command,
                   OpenRecord(command, answers), answers);
    }
    hide Deploy, Duplicate;
  }

  lemma DeployErrors(a: ActorState, target: Option<DeploymentSpec>, approved: bool, command: Command,
                     record: OperationRecord, answers: Answers)
    ensures var error := Deploy(a, target, approved, command, record, answers).error;
      && (error == Some(TargetSpecMissing) <==> target.None?)
      && (error == Some(ChildNotStarted) <==> target.Some? && !answers.childStarts)
      && (error.Some? ==> error.value.TargetSpecMissing? || error.value.ChildNotStarted? || error.value.RolloutFailed?)
  {
    hide RunRollout;
  }

  /** A deployment without a spec is refused, and nothing is asked of the outside world. */
  lemma DeployRefusedExactly(a: ActorState, command: Command, answers: Answers)
    requires !Duplicate(a, command) && command.kind == DeployVersion
    ensures var o := Execute(a, command, answers);
      && (o.error == Some(TargetSpecMissing) <==> command.targetSpec.None?)
      && (command.targetSpec.None? ==> o.trace == [Audited(command.operationID)])
  {
    var a', record := a.(status := Operating, lastError := None), OpenRecord(command, answers);
    DeployErrors(a', command.targetSpec, command.approved, command, record, answers);
    DeployAsks(a', command.targetSpec, command.approved, command, record, answers);
    hide Deploy, Duplicate;
  }

  /** So is a rollback without anything to go back to: no version with the ID, and none healthy. */
  lemma RollbackRefusedExactly(a: ActorState, command: Command, answers: Answers)
    requires !Duplicate(a, command) && command.kind == RollbackToVersion
    ensures var o := Execute(a, command, answers);
      && (o.error == Some(RollbackTargetMissing) <==>
            a.lastHealthy.None? && forall k | 0 <= k < |a.versions| :: a.versions[k].versionID != command.targetVersion)
      && (o.error == Some(RollbackTargetMissing) ==> o.trace == [Audited(command.operationID)])
  {
    var a', record := a.(status := Operating, lastError := None), OpenRecord(command, answers);
    NoneFound(a.versions, command.targetVersion);
    DeployErrors(a', RollbackSpec(a', command.targetVersion), true, command, record, answers);
    hide Deploy, Duplicate, FindVersion;
  }

  /** So is a command of a kind the actor does not know. */
  lemma UnsupportedRefused(a: ActorState, command: Command, answers: Answers)
    requires !Duplicate(a, command) && command.kind.Unsupported?
    ensures var o := Execute(a, command, answers);
            o.error == Some(UnsupportedCommand) && o.trace == [Audited(command.operationID)]
  {
    hide Duplicate;
  }

  lemma DeployAsks(a: ActorState, target: Option<DeploymentSpec>, approved: bool, command: Command,
                   record: OperationRecord, answers: Answers)
    ensures target.None? ==> Deploy(a, target, approved, command, record, answers).trace == []
  {
    hide RunRollout;
  }

  lemma {:induction false} NoneFound(versions: seq<DeploymentVersion>, id: int)
    ensures FindVersion(versions, id).None? <==> forall k | 0 <= k < |versions| :: versions[k].versionID != id
  {
    if versions != [] {
      NoneFound(versions[1..], id);
      assert forall k | 0 < k < |versions| :: versions[k] == versions[1..][k - 1];
      assert forall k | 0 <= k < |versions[1..]| :: versions[1..][k] == versions[k + 1];
    }
  }

  // ----- Job state -----

  /** A suspend asks for the job to be suspended, and on success leaves the actor suspended. */
  lemma SuspendMeans(a: ActorState, command: Command, answers: Answers)
    requires !Duplicate(a, command) && command.kind == Suspend
    ensures var o := Execute(a, command, answers);
      && (o.error.None? <==> a.current.Some? && answers.jobStateSet)
      && o.state.status == (if o.error.None? then Suspended else ActorFailed)
      && o.trace == (if a.current.Some? then [JobStateSet("SUSPENDED", answers.jobStateSet)] else [])
                    + [Audited(command.operationID)]
  {
    hide Duplicate;
  }

  /** A resume asks for the job to run, then looks at it, and on success leaves the actor idle. */
  lemma ResumeMeans(a: ActorState, command: Command, answers: Answers)
    requires !Duplicate(a, command) && command.kind == Resume
    ensures var o := Execute(a, command, answers);
      && (o.error.None? <==> a.current.Some? && answers.jobStateSet && answers.health.Some?)
      && o.state.status == (if o.error.None? then Idle else ActorFailed)
      && o.trace == (if a.current.None? then []
                     else if !answers.jobStateSet then [JobStateSet("RUNNING", false)]
                     else [JobStateSet("RUNNING", true), Observed(a.current.value.versionID, answers.health)])
                    + [Audited(command.operationID)]
  {
    hide Duplicate;
  }

  /** A savepoint is taken by trigger and observation, and becomes the last one. */
  lemma SavepointMeans(a: ActorState, command: Command, answers: Answers)
    requires !Duplicate(a, command) && command.kind == RequestSavepoint
    ensures var o := Execute(a, command, answers);
            var taken := a.current.Some? && answers.childStarts && answers.savepoint.triggered
                && answers.savepoint.record.Some?;
      && (o.error.None? <==> taken)
      && o.state.lastSavepoint == (if taken then answers.savepoint.record else a.lastSavepoint)
      && (a.current.Some? ==>
            o.record.childWorkflowID == "flink-savepoint/" + a.identity.environment + "/" + a.identity.namespace + "/"
                                        + a.identity.name + "/" + command.operationID)
      && (taken ==>
            && o.trace == [SavepointTriggered(true), SavepointObserved(answers.savepoint.record),
                Audited(command.operationID)]
            && o.record.note == if answers.savepoint.record.value.uri == "" then Completed
                                else SavepointAt(answers.savepoint.record.value.uri))
  {
    hide Duplicate;
  }

  /** The other commands ask for nothing but the audit. */
  lemma QuietCommands(a: ActorState, command: Command, answers: Answers)
    requires !Duplicate(a, command)
    requires command.kind.EnableAutoscaler? || command.kind.FreezeAutoscaler? || command.kind.ContinueAsNew?
    ensures var o := Execute(a, command, answers);
            o.error.None? && o.trace == [Audited(command.operationID)] && o.state.status == Idle
                && o.record.note == Completed
  {
    hide Duplicate;
  }

  // ----- The record -----

  /** The key of a command is the caller's, or the operation's ID if the caller gave none. */
  lemma KeyMeans(command: Command)
    ensures command.idempotencyKey != "" ==> Key(command) == command.idempotencyKey
    ensures command.idempotencyKey == "" ==> Key(command) == command.operationID
  {
  }

  /** Every executed command leaves a record of who asked for what, when, and how it ended. */
  lemma RecordMeans(a: ActorState, command: Command, answers: Answers)
    requires !Duplicate(a, command)
    ensures var o := Execute(a, command, answers); var r := o.record;
      && r.operationID == command.operationID && r.requester == command.requester && r.kind == command.kind
      && r.startedAt == answers.now && r.completedAt == answers.done
      && r.status == (if o.error.None? then Succeeded else Failed)
      && (o.error.Some? ==> r.note == Failure(o.error.value)) && !r.note.NoNote?
      && o.state.lastError == o.error
      && (o.error.Some? ==> o.state.status == ActorFailed)
      && (o.error.None? ==> o.state.status == if command.kind == Suspend then Suspended else Idle)
  {
    var a', record := a.(status := Operating, lastError := None), OpenRecord(command, answers);
    PerformKeeps(a', command, record, answers);
    hide Perform, Duplicate;
  }

  /** What no command changes in the record, and what commands change in the settings. */
  ghost predicate Keeps(a: ActorState, command: Command, record: OperationRecord, o: Outcome) {
    && o.record.operationID == record.operationID && o.record.requester == record.requester
    && o.record.kind == record.kind && o.record.startedAt == record.startedAt
    && (o.error.None? ==> o.state.status == if command.kind == Suspend then Suspended else a.status)
    && o.state.autoscalerFrozen == (a.autoscalerFrozen || command.kind.FreezeAutoscaler?)
    && o.state.autoscalerEnabled == (if o.deployed.Some? then o.deployed.value.version.spec.autoscalerEnabled
                                     else a.autoscalerEnabled || command.kind.EnableAutoscaler?)
  }

  lemma PerformKeeps(a: ActorState, command: Command, record: OperationRecord, answers: Answers)
    ensures Keeps(a, command, record, Perform(a, command, record, answers))
  {
    hide Deploy, Rollback, Scale, TakeSavepoint, ResumeJob;
    match command.kind
    case DeployVersion => DeployKeeps(a, command.targetSpec, command.approved, command, record, answers);
    case RollbackToVersion => RollbackKeeps(a, command, record, answers);
    case ScaleTo => ScaleKeeps(a, command, record, answers);
    case RequestSavepoint => SavepointKeeps(a, command, record, answers);
    case Resume => ResumeKeeps(a, command, record, answers);
    case _ =>
  }

  lemma DeployKeeps(a: ActorState, target: Option<DeploymentSpec>, approved: bool, command: Command,
                    record: OperationRecord, answers: Answers)
    requires !command.kind.Suspend? && !command.kind.FreezeAutoscaler? && !command.kind.EnableAutoscaler?
    ensures Keeps(a, command, record, Deploy(a, target, approved, command, record, answers))
  {
    hide RunRollout;
  }

  lemma RollbackKeeps(a: ActorState, command: Command, record: OperationRecord, answers: Answers)
    requires command.kind == RollbackToVersion
    ensures Keeps(a, command, record, Rollback(a, command, record, answers))
  {
    DeployKeeps(a, RollbackSpec(a, command.targetVersion), true, command, record, answers);
    hide Deploy, RollbackSpec;
  }

  lemma ScaleKeeps(a: ActorState, command: Command, record: OperationRecord, answers: Answers)
    requires command.kind == ScaleTo
    ensures Keeps(a, command, record, Scale(a, command, record, answers))
  {
    if a.current.Some? {
      var spec := a.current.value.spec.(parallelism := command.parallelism);
      DeployKeeps(a, Some(spec), command.approved, command, record, answers);
    }
    hide Deploy;
  }

  lemma SavepointKeeps(a: ActorState, command: Command, record: OperationRecord, answers: Answers)
    requires command.kind == RequestSavepoint
    ensures Keeps(a, command, record, TakeSavepoint(a, command, record, answers))
  {
  }

  lemma ResumeKeeps(a: ActorState, command: Command, record: OperationRecord, answers: Answers)
    requires command.kind == Resume
    ensures Keeps(a, command, record, ResumeJob(a, record, answers))
  {
  }

  /** What a deployment runs as a child, and what it takes over from the child's result. */
  lemma DeployMeans(a: ActorState, command: Command, answers: Answers)
    requires !Duplicate(a, command) && command.kind == DeployVersion && command.targetSpec.Some?
    ensures var o := Execute(a, command, answers);
            var input := RolloutInput(a.identity, a.current, command.targetSpec.value, a.policy, command.operationID,
                                      command.approved, command.incident);
            var run := RunRollout(input, answers.rollout);
      && o.record.childWorkflowID == "flink-rollout/" + a.identity.environment + "/" + a.identity.namespace + "/"
                                     + a.identity.name + "/" + command.operationID
      && (o.error.None? <==> answers.childStarts && run.outcome.Ok?)
      && o.trace == (if answers.childStarts then run.trace else []) + [Audited(command.operationID)]
      && (o.error.None? ==>
            var result := run.outcome.value;
            && o.state.current == Some(result.version)
            && o.state.lastSavepoint == (if result.savepoint.Some? then result.savepoint else a.lastSavepoint)
            && o.state.autoscalerEnabled == result.version.spec.autoscalerEnabled
            && o.record.leaseID == result.leaseID
            && o.record.note == VersionHealthy(result.version.versionID))
      && (o.error.Some? ==> o.state.current == a.current && o.state.lastSavepoint == a.lastSavepoint)
  {
    hide RunRollout, Duplicate;
  }

  // ----- Settings over whole runs -----

  lemma ExecuteFlags(a: ActorState, command: Command, answers: Answers)
    requires !Duplicate(a, command)
    ensures var o := Execute(a, command, answers);
      && o.state.autoscalerFrozen == (a.autoscalerFrozen || command.kind.FreezeAutoscaler?)
      && o.state.autoscalerEnabled == (if o.deployed.Some? then o.deployed.value.version.spec.autoscalerEnabled
                                       else a.autoscalerEnabled || command.kind.EnableAutoscaler?)
  {
    var a', record := a.(status := Operating, lastError := None), OpenRecord(command, answers);
    PerformKeeps(a', command, record, answers);
    hide Perform, Duplicate;
  }

  ghost predicate ExecutedAt(machines: seq<Machine>, j: nat)
    requires j + 1 < |machines|
  {
    |machines[j].executed| < |machines[j + 1].executed|
  }

  lemma HandledFlags(m: Machine, m': Machine, command: Command, answers: Answers)
    requires Handled(m, m', command, answers)
    ensures var executed, deployed := |m.executed| < |m'.executed|, |m.history| < |m'.history|;
      && m'.actor.autoscalerFrozen == (m.actor.autoscalerFrozen || (executed && command.kind.FreezeAutoscaler?))
      && m'.actor.autoscalerEnabled == (if deployed then m'.history[|m.history|].version.spec.autoscalerEnabled
                                        else m.actor.autoscalerEnabled || (executed && command.kind.EnableAutoscaler?))
      && (deployed ==> |m'.history| == |m.history| + 1)
      && (deployed && command.kind == ScaleTo ==> !(m.actor.autoscalerEnabled && !m.actor.autoscalerFrozen))
  {
    RestartKeepsFlags(Processed(m, command, answers));
    if !Duplicate(m.actor, command) {
      ExecuteFlags(m.actor, command, answers);
      if command.kind == ScaleTo {
        ScaleRejectedExactly(m.actor, command, answers);
      }
    }
    hide Duplicate, Execute, NextGeneration, InStep, Runtime, SameButHealth, NewVersionOk;
  }

  lemma RestartKeepsFlags(a: ActorState)
    ensures NextGeneration(a).autoscalerFrozen == a.autoscalerFrozen
    ensures NextGeneration(a).autoscalerEnabled == a.autoscalerEnabled
  {
    hide LastOf, KeyMap, DefaultPolicy;
  }

  /** In every reachable state the autoscaler is frozen exactly when a freeze has been executed. */
  lemma {:induction false} FrozenExactly(identity: DeploymentIdentity, policy: Policy, continueAfter: int,
                                         machines: seq<Machine>, commands: seq<Command>, oracle: nat -> Answers, i: nat)
    requires Life(identity, policy, continueAfter, machines, commands, oracle) && i < |machines|
    ensures |machines| == |commands| + 1
    ensures machines[i].actor.autoscalerFrozen <==>
              exists j: nat :: j < i && ExecutedAt(machines, j) && commands[j].kind.FreezeAutoscaler?
  {
    hide Life, Reached, Handled, KeysInv, AliasOk;
    LifeShape(identity, policy, continueAfter, machines, commands, oracle);
    if i == 0 {
      StartsUnset(identity, policy, continueAfter);
    } else {
      var h := i - 1;
      FrozenExactly(identity, policy, continueAfter, machines, commands, oracle, h);
      SignalOfLife(identity, policy, continueAfter, machines, commands, oracle, h);
      HandledFlags(machines[h], machines[i], commands[h], oracle(|machines[h].taken|));
      assert ExecutedAt(machines, h) <==> |machines[h].executed| < |machines[i].executed|;
    }
  }

  lemma StartsUnset(identity: DeploymentIdentity, policy: Policy, continueAfter: int)
    ensures var a := Initial(identity, policy, continueAfter).actor; !a.autoscalerFrozen && !a.autoscalerEnabled
  {
  }

  /** Command w set whether the autoscaler is on. */
  ghost predicate SetAt(machines: seq<Machine>, commands: seq<Command>, w: nat)
    requires w < |commands| && |machines| == |commands| + 1
  {
    DeployedAt(machines, w) || (ExecutedAt(machines, w) && commands[w].kind.EnableAutoscaler?)
  }

  /** The last command before i that set it is w, and w switched it on: an enable, or the deployment
      of a version whose spec says so. */
  ghost predicate SwitchedOnBy(machines: seq<Machine>, commands: seq<Command>, w: nat, i: nat)
    requires i <= |commands| && |machines| == |commands| + 1
  {
    && w < i && SetAt(machines, commands, w) && (forall v | w < v < i :: !SetAt(machines, commands, v))
    && (DeployedAt(machines, w) ==> machines[w + 1].history[|machines[w].history|].version.spec.autoscalerEnabled)
  }

  lemma SwitchGoesOn(machines: seq<Machine>, commands: seq<Command>, h: nat, i: nat)
    requires i == h + 1 && i <= |commands| && |machines| == |commands| + 1
    ensures (exists w: nat :: SwitchedOnBy(machines, commands, w, i)) <==>
              if !SetAt(machines, commands, h) then exists w: nat :: SwitchedOnBy(machines, commands, w, h)
              else DeployedAt(machines, h) ==> machines[i].history[|machines[h].history|].version.spec.autoscalerEnabled
  {
    hide SetAt;
    if w: nat :| SwitchedOnBy(machines, commands, w, i) {
      if w < h {
        assert SwitchedOnBy(machines, commands, w, h);
      }
    }
    if SetAt(machines, commands, h) {
      if DeployedAt(machines, h) ==> machines[i].history[|machines[h].history|].version.spec.autoscalerEnabled {
        assert SwitchedOnBy(machines, commands, h, i);
      }
    } else if w: nat :| SwitchedOnBy(machines, commands, w, h) {
      assert SwitchedOnBy(machines, commands, w, i);
    }
  }

  /** In every reachable state the autoscaler is on exactly when the last deployment or enable
      switched it on. */
  lemma {:induction false} EnabledExactly(identity: DeploymentIdentity, policy: Policy, continueAfter: int,
                                          machines: seq<Machine>, commands: seq<Command>, oracle: nat -> Answers,
                                          i: nat)
    requires Life(identity, policy, continueAfter, machines, commands, oracle) && i < |machines|
    ensures |machines| == |commands| + 1
    ensures machines[i].actor.autoscalerEnabled <==> exists w: nat :: SwitchedOnBy(machines, commands, w, i)
  {
    hide Life, Reached, Handled, KeysInv, AliasOk, SwitchedOnBy;
    LifeShape(identity, policy, continueAfter, machines, commands, oracle);
    if i == 0 {
      StartsUnset(identity, policy, continueAfter);
      NothingSwitched(machines, commands);
    } else {
      var h := i - 1;
      EnabledExactly(identity, policy, continueAfter, machines, commands, oracle, h);
      SignalOfLife(identity, policy, continueAfter, machines, commands, oracle, h);
      HandledFlags(machines[h], machines[i], commands[h], oracle(|machines[h].taken|));
      SwitchGoesOn(machines, commands, h, i);
    }
  }

  lemma NothingSwitched(machines: seq<Machine>, commands: seq<Command>)
    requires |machines| == |commands| + 1
    ensures !exists w: nat :: SwitchedOnBy(machines, commands, w, 0)
  {
  }

  /** No version is ever recorded by a manual scale while the autoscaler is on and not frozen. */
  lemma NoScaleWhileActive(identity: DeploymentIdentity, policy: Policy, continueAfter: int,
                           machines: seq<Machine>, commands: seq<Command>, oracle: nat -> Answers, i: nat)
    requires Life(identity, policy, continueAfter, machines, commands, oracle) && i < |commands|
    ensures |machines| == |commands| + 1
    ensures commands[i].kind == ScaleTo ==>
              machines[i].actor.autoscalerEnabled && !machines[i].actor.autoscalerFrozen ==> !DeployedAt(machines, i)
  {
    hide Life, Reached, Handled, KeysInv, AliasOk;
    LifeShape(identity, policy, continueAfter, machines, commands, oracle);
    SignalOfLife(identity, policy, continueAfter, machines, commands, oracle, i);
    HandledFlags(machines[i], machines[i + 1], commands[i], oracle(|machines[i].taken|));
  }

  /** The defaults an actor runs with, in every generation. */
  lemma DefaultsMean(identity: DeploymentIdentity, policy: Policy, continueAfter: int,
                     machines: seq<Machine>, commands: seq<Command>, oracle: nat -> Answers, i: nat)
    requires Life(identity, policy, continueAfter, machines, commands, oracle) && i < |machines|
    ensures machines[i].actor.continueAfter == if continueAfter <= 0 then 500 else continueAfter
    ensures machines[i].actor.identity == identity
    ensures machines[i].actor.policy ==
              if policy == Policy(false, false, false, false, false, false, 0, 0.0, 0)
              then DefaultPolicy(identity.environment) else policy
  {
    MemoryIsWindow(identity, policy, continueAfter, machines, commands, oracle, i);
    RecordedVersionsHealthy(identity, policy, continueAfter, machines, commands, oracle, i);
    SameIdentity(identity, policy, continueAfter, machines, commands, oracle, i);
    hide Life, Window, SinceRestart, DefaultPolicy, PassesGate;
  }

  lemma {:induction false} SameIdentity(identity: DeploymentIdentity, policy: Policy, continueAfter: int,
                                        machines: seq<Machine>, commands: seq<Command>, oracle: nat -> Answers, i: nat)
    requires Life(identity, policy, continueAfter, machines, commands, oracle) && i < |machines|
    ensures machines[i].actor.identity == identity
  {
    hide Life, Reached, Handled, KeysInv, AliasOk, Initial;
    LifeShape(identity, policy, continueAfter, machines, commands, oracle);
    if i == 0 {
      StartsAs(identity, policy, continueAfter);
    } else {
      SameIdentity(identity, policy, continueAfter, machines, commands, oracle, i - 1);
      SignalOfLife(identity, policy, continueAfter, machines, commands, oracle, i - 1);
      HandledIdentity(machines[i - 1], machines[i], commands[i - 1], oracle(|machines[i - 1].taken|));
    }
  }

  lemma StartsAs(identity: DeploymentIdentity, policy: Policy, continueAfter: int)
    ensures Initial(identity, policy, continueAfter).actor.identity == identity
  {
  }

  lemma HandledIdentity(m: Machine, m': Machine, command: Command, answers: Answers)
    requires Handled(m, m', command, answers)
    ensures m'.actor.identity == m.actor.identity
  {
    RestartKeepsIdentity(Processed(m, command, answers));
    hide Duplicate, Execute, NextGeneration, InStep, Runtime, VersionEffect;
  }

  lemma RestartKeepsIdentity(a: ActorState)
    ensures NextGeneration(a).identity == a.identity
  {
    hide LastOf, KeyMap, DefaultPolicy;
  }
}
