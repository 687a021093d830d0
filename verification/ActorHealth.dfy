// When the version the actor calls last healthy passes the health gate, over whole runs.
module ActorHealth {
  import opened Wrappers
  import opened Domain
  import opened Rollout
  import opened Actor
  import opened ActorTheorems
  import opened ActorGuarantees
  import opened ActorMemory
  import Text

  predicate Passing(a: ActorState) {
    a.lastHealthy.Some? ==> PassesGate(a.lastHealthy.value.health, a.policy)
  }

  /** A resume that succeeds keeps the last healthy version past the gate exactly when that version
      is an object of its own or the resumed job passes the gate itself. */
  lemma ResumeHealthExact(a: ActorState, command: Command, answers: Answers)
    requires !Duplicate(a, command) && AliasOk(a) && command.kind == Resume
    requires Execute(a, command, answers).error.None?
    requires a.lastHealthy.Some? && Passing(a)
    ensures answers.health.Some?
    ensures Passing(Execute(a, command, answers).state) <==> !a.aliased || PassesGate(answers.health.value, a.policy)
  {
    ResumeOverwritesSharedHealth(a, command, answers);
    ExecuteEffect(a, command, answers, None);
    hide Execute, Duplicate, PassesGate, VersionEffect;
  }

  // ----- Sharing -----

  ghost predicate DeployedAt(machines: seq<Machine>, d: nat)
    requires d + 1 < |machines|
  {
    |machines[d].history| < |machines[d + 1].history|
  }

  predicate RestartedAt(commands: seq<Command>, limit: int, e: nat)
    requires e < |commands|
  {
    SinceRestart(commands[..e + 1], limit) == 0
  }

  /** A version was deployed by command d and no generation has ended since. */
  ghost predicate SharedSince(machines: seq<Machine>, commands: seq<Command>, limit: int, d: nat, i: nat)
    requires i < |machines| == |commands| + 1
  {
    d < i && DeployedAt(machines, d) && forall e | d <= e < i :: !RestartedAt(commands, limit, e)
  }

  /** What one handled command does to the two version pointers. */
  lemma HandledSharing(m: Machine, m': Machine, command: Command, answers: Answers)
    requires Handled(m, m', command, answers) && AliasOk(m.actor)
    ensures var ends, deployed := Ends(Processed(m, command, answers), command), |m.history| < |m'.history|;
            m'.actor.aliased == (!ends && (deployed || m.actor.aliased))
  {
    NextGenerationHealth(Processed(m, command, answers));
    hide Duplicate, Execute, NewVersionOk, SameButHealth, NextGeneration, InStep, Runtime;
  }

  lemma EndsMeansRestart(m: Machine, m': Machine, commands: seq<Command>, command: Command, answers: Answers,
                         limit: int)
    requires Handled(m, m', command, answers) && Remembers(m.actor, commands, limit)
    ensures Ends(Processed(m, command, answers), command) <==> SinceRestart(commands + [command], limit) == 0
  {
    ProcessedKeys(m, command, answers);
    WindowOnce(commands, command, limit);
    hide Processed, Duplicate, Execute, Executed, NextGeneration, SinceRestart, Window;
  }

  /** The current and the last healthy version are one object exactly when a version was deployed
      and no generation has ended since. */
  lemma {:induction false} SharedExactly(identity: DeploymentIdentity, policy: Policy, continueAfter: int,
                                         machines: seq<Machine>, commands: seq<Command>, oracle: nat -> Answers, i: nat)
    requires Life(identity, policy, continueAfter, machines, commands, oracle) && i < |machines|
    ensures |machines| == |commands| + 1
    ensures machines[i].actor.aliased <==> exists d: nat :: SharedSince(machines, commands, Limit(continueAfter), d, i)
  {
    hide Life, Reached, Handled, Remembers, KeysInv, AliasOk, Processed, Ends, SinceRestart, Limit;
    LifeShape(identity, policy, continueAfter, machines, commands, oracle);
    if i == 0 {
      StartsUnshared(identity, policy, continueAfter);
    } else {
      var h, limit := i - 1, Limit(continueAfter);
      var answers := oracle(|machines[h].taken|);
      SharedExactly(identity, policy, continueAfter, machines, commands, oracle, h);
      SignalOfLife(identity, policy, continueAfter, machines, commands, oracle, h);
      MemoryIsWindow(identity, policy, continueAfter, machines, commands, oracle, h);
      HandledSharing(machines[h], machines[i], commands[h], answers);
      EndsMeansRestart(machines[h], machines[i], commands[..h], commands[h], answers, limit);
      assert commands[..h + 1] == commands[..h] + [commands[h]];
      SharingGoesOn(machines, commands, limit, h, i);
    }
  }

  lemma StartsUnshared(identity: DeploymentIdentity, policy: Policy, continueAfter: int)
    ensures !Initial(identity, policy, continueAfter).actor.aliased
  {
  }

  lemma SharingGoesOn(machines: seq<Machine>, commands: seq<Command>, limit: int, h: nat, i: nat)
    requires i == h + 1 && i < |machines| == |commands| + 1
    ensures (exists d: nat :: SharedSince(machines, commands, limit, d, i))
       <==> !RestartedAt(commands, limit, h) && (DeployedAt(machines, h) || exists d: nat ::
           SharedSince(machines, commands, limit, d, h))
  {
    hide RestartedAt, DeployedAt;
    if d: nat :| SharedSince(machines, commands, limit, d, i) {
      if d < h {
        assert SharedSince(machines, commands, limit, d, h);
      }
    }
    if !RestartedAt(commands, limit, h) {
      if DeployedAt(machines, h) {
        assert SharedSince(machines, commands, limit, h, i);
      }
      if d: nat :| SharedSince(machines, commands, limit, d, h) {
        assert SharedSince(machines, commands, limit, d, i);
      }
    }
  }

  // ----- Health -----

  /** Only a deployment and a successful resume write the last healthy version. */
  lemma OthersKeepHealth(a: ActorState, command: Command, answers: Answers)
    requires !Duplicate(a, command)
    ensures var o := Execute(a, command, answers);
            o.deployed.None? && !(command.kind == Resume && o.error.None?) ==> o.state.lastHealthy == a.lastHealthy
  {
    var a' := a.(status := Operating, lastError := None);
    var record := OpenRecord(command, answers);
    hide RunRollout, SavepointRun, FindVersion, Duplicate;
    match command.kind
    case DeployVersion => DeployKeepsHealth(a', command.targetSpec, command.approved, command, record, answers);
    case RollbackToVersion => DeployKeepsHealth(a', RollbackSpec(a', command.targetVersion), true, command, record,
        answers);
    case ScaleTo =>
      if a.current.Some? {
        DeployKeepsHealth(a', Some(a.current.value.spec.(parallelism := command.parallelism)), command.approved,
            command, record, answers);
      }
      hide Deploy;
    case _ =>
  }

  lemma DeployKeepsHealth(a: ActorState, target: Option<DeploymentSpec>, approved: bool, command: Command,
                          record: OperationRecord, answers: Answers)
    ensures var o := Deploy(a, target, approved, command, record, answers); o.deployed.None? ==>
        o.state.lastHealthy == a.lastHealthy
  {
    hide RunRollout;
  }

  /** The command was a resume that was executed and succeeded. */
  ghost predicate ResumedAt(m: Machine, m': Machine, command: Command) {
    command.kind == Resume && |m.executed| < |m'.executed| && m'.executed[|m.executed|].status.Succeeded?
  }

  lemma HandledHealth(m: Machine, m': Machine, command: Command, answers: Answers)
    requires Handled(m, m', command, answers) && AliasOk(m.actor)
    ensures m'.actor.policy == m.actor.policy || m.actor.policy == ZERO_POLICY
    ensures |m.history| < |m'.history| ==>
      m'.actor.lastHealthy.Some? && PassesGate(m'.actor.lastHealthy.value.health, m.actor.policy)
    ensures |m.history| >= |m'.history| && ResumedAt(m, m', command) ==>
      && answers.health.Some? && m.actor.current.Some?
      && m'.actor.lastHealthy == if m.actor.aliased then Some(m.actor.current.value.(health := answers.health.value))
          else m.actor.lastHealthy
    ensures |m.history| >= |m'.history| && !ResumedAt(m, m', command) ==> m'.actor.lastHealthy == m.actor.lastHealthy
  {
    NextGenerationHealth(Processed(m, command, answers));
    if !Duplicate(m.actor, command) {
      OthersKeepHealth(m.actor, command, answers);
      RecordTellsError(m.actor, command, answers);
      if command.kind == Resume && Execute(m.actor, command, answers).error.None? {
        ResumeOverwritesSharedHealth(m.actor, command, answers);
      }
    }
    hide Duplicate, Execute, SameButHealth, NextGeneration, InStep, Runtime, PassesGate;
  }

  lemma NextGenerationHealth(a: ActorState)
    ensures NextGeneration(a).lastHealthy == a.lastHealthy && !NextGeneration(a).aliased
    ensures NextGeneration(a).policy == a.policy || a.policy == ZERO_POLICY
  {
    hide LastOf, KeyMap, DefaultPolicy;
  }

  lemma RecordTellsError(a: ActorState, command: Command, answers: Answers)
    requires !Duplicate(a, command)
    ensures var o := Execute(a, command, answers); o.record.status.Succeeded? <==> o.error.None?
  {
    hide Perform, Duplicate;
  }

  /** Over any run: after each command the last healthy version passes the gate exactly when a
      version was just deployed, or a job was resumed whose versions are one object and it passes, or
      the command did neither and the last healthy version passed before. */
  lemma LastHealthyPassesExactly(identity: DeploymentIdentity, policy: Policy, continueAfter: int,
                                 machines: seq<Machine>, commands: seq<Command>, oracle: nat -> Answers, i: nat)
    requires Life(identity, policy, continueAfter, machines, commands, oracle) && i < |commands|
    ensures |machines| == |commands| + 1
    ensures var m, m' := machines[i], machines[i + 1];
            Passing(m'.actor) <==>
              if DeployedAt(machines, i) then true
              else if ResumedAt(m, m', commands[i]) && m.actor.aliased then
                oracle(i).health.Some? && PassesGate(oracle(i).health.value, m.actor.policy)
              else Passing(m.actor)
  {
    hide Life, Reached, Handled, KeysInv, PassesGate;
    LifeShape(identity, policy, continueAfter, machines, commands, oracle);
    SignalOfLife(identity, policy, continueAfter, machines, commands, oracle, i);
    BoundedMemory(identity, policy, continueAfter, machines, commands, oracle, i);
    RecordedVersionsHealthy(identity, policy, continueAfter, machines, commands, oracle, i);
    RecordedVersionsHealthy(identity, policy, continueAfter, machines, commands, oracle, i + 1);
    assert |commands[..i]| == i;
    HandledHealth(machines[i], machines[i + 1], commands[i], oracle(i));
  }

  /** Command w wrote the last healthy version: it deployed one, or resumed a shared one. */
  ghost predicate WrittenAt(machines: seq<Machine>, commands: seq<Command>, w: nat)
    requires w < |commands| && |machines| == |commands| + 1
  {
    DeployedAt(machines, w) || (ResumedAt(machines[w], machines[w + 1], commands[w]) && machines[w].actor.aliased)
  }

  /** The last command before i that wrote it is w, a resume that observed a failing health. */
  ghost predicate SpoiledBy(machines: seq<Machine>, commands: seq<Command>, oracle: nat -> Answers, policy: Policy,
                            w: nat, i: nat)
    requires i <= |commands| && |machines| == |commands| + 1
  {
    && w < i && WrittenAt(machines, commands, w) && (forall v | w < v < i :: !WrittenAt(machines, commands, v))
    && !DeployedAt(machines, w)
    && !(oracle(w).health.Some? && PassesGate(oracle(w).health.value, policy))
  }

  lemma SpoilingGoesOn(machines: seq<Machine>, commands: seq<Command>, oracle: nat -> Answers, policy: Policy, h: nat,
                       i: nat)
    requires i == h + 1 && i <= |commands| && |machines| == |commands| + 1
    ensures (exists w: nat :: SpoiledBy(machines, commands, oracle, policy, w, i)) <==>
              if !WrittenAt(machines, commands, h) then exists w: nat ::
                  SpoiledBy(machines, commands, oracle, policy, w, h)
              else !DeployedAt(machines, h) && !(oracle(h).health.Some? && PassesGate(oracle(h).health.value, policy))
  {
    hide WrittenAt, DeployedAt, PassesGate;
    if w: nat :| SpoiledBy(machines, commands, oracle, policy, w, i) {
      if w < h {
        assert SpoiledBy(machines, commands, oracle, policy, w, h);
      }
    }
    if WrittenAt(machines, commands, h) {
      if !DeployedAt(machines, h) && !(oracle(h).health.Some? && PassesGate(oracle(h).health.value, policy)) {
        assert SpoiledBy(machines, commands, oracle, policy, h, i);
      }
    } else if w: nat :| SpoiledBy(machines, commands, oracle, policy, w, h) {
      assert SpoiledBy(machines, commands, oracle, policy, w, i);
    }
  }

  /** In every reachable state the last healthy version fails the gate exactly when the last command
      that wrote it was a resume whose observed health fails, and no deployment. */
  lemma {:induction false} LastHealthyFailsExactly(identity: DeploymentIdentity, policy: Policy, continueAfter: int,
                                                   machines: seq<Machine>, commands: seq<Command>,
                                                   oracle: nat -> Answers, i: nat)
    requires Life(identity, policy, continueAfter, machines, commands, oracle) && i < |machines|
    ensures |machines| == |commands| + 1
    ensures !Passing(machines[i].actor) <==>
              exists w: nat :: SpoiledBy(machines, commands, oracle, EffectivePolicy(identity, policy), w, i)
  {
    hide Life, Passing, PassesGate, DeployedAt, ResumedAt, SpoiledBy;
    LifeShape(identity, policy, continueAfter, machines, commands, oracle);
    if i == 0 {
      StartsPassing(identity, policy, continueAfter);
      NoneSpoiled(machines, commands, oracle, EffectivePolicy(identity, policy));
    } else {
      var h := i - 1;
      LastHealthyFailsExactly(identity, policy, continueAfter, machines, commands, oracle, h);
      LastHealthyPassesExactly(identity, policy, continueAfter, machines, commands, oracle, h);
      RecordedVersionsHealthy(identity, policy, continueAfter, machines, commands, oracle, h);
      SpoilingGoesOn(machines, commands, oracle, EffectivePolicy(identity, policy), h, i);
    }
  }

  lemma StartsPassing(identity: DeploymentIdentity, policy: Policy, continueAfter: int)
    ensures Passing(Initial(identity, policy, continueAfter).actor)
  {
  }

  lemma NoneSpoiled(machines: seq<Machine>, commands: seq<Command>, oracle: nat -> Answers, policy: Policy)
    requires |machines| == |commands| + 1
    ensures !exists w: nat :: SpoiledBy(machines, commands, oracle, policy, w, 0)
  {
  }

  // ----- A last healthy version that fails the gate -----

  const GOOD_HEALTH := HealthSummary(false, true, true, 0, 0.0, 0, true, "", 0)
  const BAD_HEALTH := HealthSummary(false, false, false, 0, 0.0, 0, false, "", 0)

  function SmallSpec(): DeploymentSpec {
    DeploymentSpec("@sha256:", "", "", map[], map[], 1, 1, ResourceShape(0.0, 0, 0, 0),
        StateCompatibility(true, true, false, false), false)
  }

  function DeployThenResume(): (commands: seq<Command>)
    ensures |commands| == 2
  {
    [Command("deploy", "", DeployVersion, "operator", Some(SmallSpec()), 0, 0, false, false),
     Command("resume", "", Resume, "operator", None, 0, 0, false, false)]
  }

  /** Everything works, and the job is found stopped when it is resumed. */
  function Works(health: HealthSummary): Answers {
    Answers(0, 0, true,
            RolloutAnswers(true, None, SavepointAnswers(true, None), Done(1), Some(GOOD_HEALTH), Done(1), 0, 0),
            SavepointAnswers(true, None), true, Some(health))
  }

  lemma PinnedSpec()
    ensures Text.Contains("@sha256:", "@sha256:")
  {
    assert "@sha256:" <= "@sha256:"[0..];
  }

  /** The first rollout of the small specification succeeds. */
  lemma FirstRolloutSucceeds(input: RolloutInput, health: HealthSummary)
    requires input.current.None? && input.target == SmallSpec() && input.policy == DefaultPolicy("dev")
    ensures RunRollout(input, Works(health).rollout).outcome.Ok?
  {
    PinnedSpec();
    assert Classification(input) == ChangeClassification(RiskSafe, false, false, false);
    assert AdmissionOf(input).None?;
    assert EvaluateHealth(GOOD_HEALTH, input.policy).None?;
    hide Classification, AdmissionOf, EvaluateHealth;
  }

  lemma DeploySucceeds(a: ActorState, command: Command, health: HealthSummary)
    requires !Duplicate(a, command) && command == DeployThenResume()[0]
    requires a.current.None? && a.policy == DefaultPolicy("dev")
    ensures var o := Execute(a, command, Works(health));
            o.deployed.Some? && o.state.aliased && o.state.current.Some? && o.state.policy == a.policy
  {
    var a' := a.(status := Operating, lastError := None);
    FirstRolloutSucceeds(InputOf(a', SmallSpec(), command.approved, command), health);
    hide RunRollout, SmallSpec, Duplicate;
  }

  lemma ResumeSucceeds(a: ActorState, command: Command, health: HealthSummary)
    requires !Duplicate(a, command) && command.kind == Resume && a.current.Some?
    ensures Execute(a, command, Works(health)).error.None?
  {
    hide Duplicate, Runtime;
  }

  /** A run of two commands after which the last healthy version fails the gate. */
  lemma LastHealthyCanFail(identity: DeploymentIdentity) returns (machines: seq<Machine>, oracle: nat -> Answers)
    ensures Life(identity, DefaultPolicy("dev"), 0, machines, DeployThenResume(), oracle)
    ensures machines[2].actor.lastHealthy.Some? && !Passing(machines[2].actor)
  {
    var policy, commands := DefaultPolicy("dev"), DeployThenResume();
    oracle := _ => Works(BAD_HEALTH);
    machines := RunFrom(Initial(identity, policy, 0), commands, oracle);
    RunFromTrajectory(Initial(identity, policy, 0), commands, oracle);
    assert Life(identity, policy, 0, machines, commands, oracle);
    assert EffectivePolicy(identity, policy) == policy && !PassesGate(BAD_HEALTH, policy);
    assert machines[0].actor == Start(identity, policy, 0);
    hide Life, Reached, Handled, RunFrom, Execute, PassesGate, Receive, Works, DefaultPolicy;
    SignalOfLife(identity, policy, 0, machines, commands, oracle, 0);
    SignalOfLife(identity, policy, 0, machines, commands, oracle, 1);
    AfterDeploy(machines[0], machines[1], commands[0]);
    AfterResume(machines[1], machines[2], commands[1]);
  }

  lemma AfterDeploy(m: Machine, m': Machine, command: Command)
    requires Handled(m, m', command, Works(BAD_HEALTH)) && command == DeployThenResume()[0]
    requires m.actor.processedKeys == map[] && m.actor.current.None? && m.actor.policy == DefaultPolicy("dev")
    requires m.actor.eventCount == 0 && m.actor.continueAfter == 500
    ensures m'.actor.aliased && m'.actor.current.Some? && m'.actor.policy == DefaultPolicy("dev")
    ensures m'.actor.processedKeys == map["deploy" := "deploy"]
    ensures m'.actor.eventCount == 1 && m'.actor.continueAfter == 500
  {
    DeploySucceeds(m.actor, command, BAD_HEALTH);
    hide Execute, Works, DefaultPolicy, VersionEffect, InStep, Runtime, NextGeneration;
  }

  lemma AfterResume(m: Machine, m': Machine, command: Command)
    requires Handled(m, m', command, Works(BAD_HEALTH)) && command == DeployThenResume()[1] && AliasOk(m.actor)
    requires m.actor.processedKeys == map["deploy" := "deploy"] && m.actor.current.Some? && m.actor.aliased
    requires m.actor.policy == DefaultPolicy("dev") && m.actor.eventCount == 1 && m.actor.continueAfter == 500
    ensures m'.actor.lastHealthy.Some? && m'.actor.lastHealthy.value.health == BAD_HEALTH
    ensures m'.actor.policy == DefaultPolicy("dev")
  {
    assert !Duplicate(m.actor, command);
    ResumeSucceeds(m.actor, command, BAD_HEALTH);
    ResumeOverwritesSharedHealth(m.actor, command, Works(BAD_HEALTH));
    hide Execute, DefaultPolicy, VersionEffect, InStep, Runtime, NextGeneration;
  }

  // ----- A rollback nobody approved -----

  function RiskySpec(): DeploymentSpec {
    SmallSpec().(state := StateCompatibility(true, true, true, false))
  }

  /** Neither command is approved. */
  function DeployThenRollback(): (commands: seq<Command>)
    ensures |commands| == 2
  {
    [Command("deploy", "", DeployVersion, "operator", Some(RiskySpec()), 0, 0, false, false),
     Command("rollback", "", RollbackToVersion, "operator", None, 1, 0, false, false)]
  }

  function Saves(): Answers {
    Works(GOOD_HEALTH).(rollout := Works(GOOD_HEALTH).rollout.(
      savepoint := SavepointAnswers(true, Some(SavepointRecord("uri", "", "", 1, 0)))))
  }

  /** A change of the risky specification to itself needs approval, and goes through as a rollback. */
  lemma RiskyRolloutSucceeds(input: RolloutInput)
    requires input.target == RiskySpec() && input.policy == DefaultPolicy("dev")
    requires input.current.Some? ==>
      input.approved && input.current.value.spec == RiskySpec() && input.current.value.versionID > 0
    ensures RunRollout(input, Saves().rollout).outcome.Ok?
    ensures RunRollout(input, Saves().rollout).outcome.value.version.spec == RiskySpec()
    ensures RunRollout(input, Saves().rollout).outcome.value.version.versionID == NextID(input.current)
    ensures input.current.Some? ==> ClassifyChange(input.current, input.target, input.policy).requiresApproval
  {
    PinnedSpec();
    assert !Classification(input).requiresCapacityLease && AdmissionOf(input).None?;
    assert EvaluateHealth(GOOD_HEALTH, input.policy).None?;
    hide Classification, AdmissionOf, EvaluateHealth;
  }

  lemma RiskyCommandSucceeds(a: ActorState, command: Command)
    requires !Duplicate(a, command) && a.policy == DefaultPolicy("dev")
    requires command.kind.DeployVersion? || command.kind.RollbackToVersion?
    requires command.kind.DeployVersion? ==> a.current.None? && command.targetSpec == Some(RiskySpec())
    requires command.kind.RollbackToVersion? ==>
               && a.current.Some? && a.current.value.spec == RiskySpec() && a.current.value.versionID > 0
               && RollbackSpec(a, command.targetVersion) == Some(RiskySpec())
    ensures var o := Execute(a, command, Saves());
            && o.deployed.Some? && o.deployed.value.previous == a.current && o.deployed.value.command == command
            && o.deployed.value.version.spec == RiskySpec() && o.deployed.value.version.versionID == NextID(a.current)
            && o.state.current == Some(o.deployed.value.version) && o.state.lastHealthy == o.state.current
            && o.state.versions == a.versions + [o.deployed.value.version]
  {
    var a' := a.(status := Operating, lastError := None);
    RiskyRolloutSucceeds(InputOf(a', RiskySpec(), command.kind.RollbackToVersion? || command.approved, command));
    assert RollbackSpec(a', command.targetVersion) == RollbackSpec(a, command.targetVersion);
    hide RunRollout, RiskySpec, Duplicate, RollbackSpec, Saves;
  }

  /** The actor after its first version. */
  ghost predicate HasRisky(m: Machine) {
    && |m.history| == 1 && m.history[0].version.spec == RiskySpec() && m.history[0].version.versionID == 1
    && m.actor.current == m.actor.lastHealthy == Some(m.history[0].version)
    && m.actor.versions == [m.history[0].version]
    && m.actor.processedKeys == map["deploy" := "deploy"] && m.actor.policy == DefaultPolicy("dev")
    && m.actor.eventCount == 1 && m.actor.continueAfter == 500
  }

  lemma AfterRiskyDeploy(m: Machine, m': Machine, command: Command)
    requires Handled(m, m', command, Saves()) && command == DeployThenRollback()[0]
    requires m.history == [] && m.actor.versions == [] && m.actor.current.None?
    requires m.actor.processedKeys == map[] && m.actor.policy == DefaultPolicy("dev")
    requires m.actor.eventCount == 0 && m.actor.continueAfter == 500
    ensures HasRisky(m')
  {
    RiskyCommandSucceeds(m.actor, command);
    hide Execute, Saves, DefaultPolicy, VersionEffect, InStep, Runtime, NextGeneration, RiskySpec;
  }

  lemma AfterRiskyRollback(m: Machine, m': Machine, command: Command)
    requires Handled(m, m', command, Saves()) && command == DeployThenRollback()[1] && HasRisky(m)
    ensures |m'.history| == 2 && m'.history[1].command == command && m'.history[1].previous == m.actor.current
    ensures m'.history[1].version.spec == RiskySpec()
  {
    assert !Duplicate(m.actor, command);
    assert FindVersion(m.actor.versions, 1) == Some(m.history[0].version);
    RiskyCommandSucceeds(m.actor, command);
    hide Execute, Saves, DefaultPolicy, VersionEffect, InStep, Runtime, NextGeneration, RiskySpec, Processed;
  }

  /** A run in which a rollback that nobody approved records a change that needs approval. */
  lemma UnapprovedRollbackRecorded(identity: DeploymentIdentity)
      returns (machines: seq<Machine>, oracle: nat -> Answers)
    ensures Life(identity, DefaultPolicy("dev"), 0, machines, DeployThenRollback(), oracle)
    ensures |machines[2].history| == 2
    ensures var d := machines[2].history[1];
            && d.command.kind == RollbackToVersion && !d.command.approved
            && ClassifyChange(d.previous, d.version.spec, DefaultPolicy("dev")).requiresApproval
  {
    var policy, commands := DefaultPolicy("dev"), DeployThenRollback();
    oracle := _ => Saves();
    machines := RunFrom(Initial(identity, policy, 0), commands, oracle);
    RunFromTrajectory(Initial(identity, policy, 0), commands, oracle);
    assert Life(identity, policy, 0, machines, commands, oracle);
    assert EffectivePolicy(identity, policy) == policy;
    assert machines[0] == Initial(identity, policy, 0);
    hide Life, Reached, Handled, RunFrom, Execute, Receive, Saves, DefaultPolicy, RiskySpec;
    SignalOfLife(identity, policy, 0, machines, commands, oracle, 0);
    SignalOfLife(identity, policy, 0, machines, commands, oracle, 1);
    AfterRiskyDeploy(machines[0], machines[1], commands[0]);
    AfterRiskyRollback(machines[1], machines[2], commands[1]);
    RiskyNeedsApproval(machines[2].history[1].previous);
  }

  lemma RiskyNeedsApproval(current: Option<DeploymentVersion>)
    requires current.Some? && current.value.spec == RiskySpec()
    ensures ClassifyChange(current, RiskySpec(), DefaultPolicy("dev")).requiresApproval
  {
  }
}
