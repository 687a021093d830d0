// The promises the deployment actor keeps to its operators, over any run from its start.
module ActorGuarantees {
  import opened Wrappers
  import opened Domain
  import opened Rollout
  import opened Actor
  import opened ActorTheorems
  import Text

  /** A run of a newly started actor. */
  ghost predicate Life(identity: DeploymentIdentity, policy: Policy, continueAfter: int,
                       machines: seq<Machine>, commands: seq<Command>, oracle: nat -> Answers)
  {
    Trajectory(machines, commands, oracle) && machines[0] == Initial(identity, policy, continueAfter)
  }

  lemma LifeReached(identity: DeploymentIdentity, policy: Policy, continueAfter: int,
                    machines: seq<Machine>, commands: seq<Command>, oracle: nat -> Answers, i: nat)
    requires Life(identity, policy, continueAfter, machines, commands, oracle) && i < |machines|
    ensures Reached(machines[i], EffectivePolicy(identity, policy))
    ensures machines[i].received == commands[..i]
  {
    hide Reached, Follows;
    InitialReached(identity, policy, continueAfter);
    RunReached(machines, commands, oracle, EffectivePolicy(identity, policy), 0, i);
    assert [] + commands[0..i] == commands[..i];
  }

  // ----- Idempotency -----

  /** Over any number of generations and repeated signals, no key is executed twice within any 51
      consecutive operations; and every received command has been executed, by itself or as an
      earlier command with its key. */
  lemma ExactlyOnce(identity: DeploymentIdentity, policy: Policy, continueAfter: int,
                    machines: seq<Machine>, commands: seq<Command>, oracle: nat -> Answers, i: nat)
    requires Life(identity, policy, continueAfter, machines, commands, oracle) && i < |machines|
    ensures ExactlyOnceWindow(machines[i].executed)
    ensures forall k | 0 <= k < i :: HasKey(machines[i].executed, Key(commands[k]))
  {
    assert i <= |commands|;
    LifeReached(identity, policy, continueAfter, machines, commands, oracle, i);
    var m := machines[i];
    assert m.taken == commands[..i] by {
      hide Life, KeysInv, VersionsInv, AnsweredInv;
      assert m.taken + [] == m.taken;
    }
    hide Life, VersionsInv, MemoryInv, HasKey;
    forall k | 0 <= k < i ensures HasKey(m.executed, Key(commands[k])) {
      assert m.taken[k] == commands[k];
    }
  }

  // ----- Memory -----

  /** The remembered keys are exactly those of the remembered operations, which are the end of the
      full history; memory is bounded; and commands are processed in the order received, none of
      them waiting when the actor is at rest, restarts included. */
  lemma BoundedMemory(identity: DeploymentIdentity, policy: Policy, continueAfter: int,
                      machines: seq<Machine>, commands: seq<Command>, oracle: nat -> Answers, i: nat)
    requires Life(identity, policy, continueAfter, machines, commands, oracle) && i < |machines|
    ensures var m := machines[i];
            && m.actor.processedKeys == KeyMap(m.actor.operations) && DistinctKeys(m.actor.operations)
            && Suffix(m.actor.operations, m.executed)
            && (|m.actor.operations| >= 50 || m.actor.operations == m.executed)
            && |m.actor.operations| <= 50 + m.actor.continueAfter
            && |m.actor.versions| <= 50 + m.actor.continueAfter
            && m.taken == commands[..i] && m.actor.pending == []
  {
    hide Life;
    LifeReached(identity, policy, continueAfter, machines, commands, oracle, i);
    hide VersionsInv, AnsweredInv, DistinctKeys, ExactlyOnceWindow;
    assert machines[i].taken + [] == machines[i].taken;
  }

  /** Keys and operation IDs are remembered together: exactly the operations say which. */
  lemma {:induction false} KeyMapMeans(operations: seq<OperationRecord>, key: string, id: string)
    requires DistinctKeys(operations)
    ensures key in KeyMap(operations) && KeyMap(operations)[key] == id
       <==> exists i :: 0 <= i < |operations| && operations[i].idempotencyKey == key && operations[i].operationID == id
  {
    if operations != [] {
      var init, last := operations[..|operations| - 1], operations[|operations| - 1];
      KeyMapMeans(init, key, id);
      if i :| 0 <= i < |init| && init[i].idempotencyKey == key && init[i].operationID == id {
        assert operations[i] == init[i];
      }
      if i :| 0 <= i < |operations| && operations[i].idempotencyKey == key && operations[i].operationID == id {
        if i < |init| {
          assert init[i] == operations[i];
          assert last.idempotencyKey != key;
        }
      }
      if key in KeyMap(operations) && KeyMap(operations)[key] == id && last.idempotencyKey == key {
        assert operations[|operations| - 1].operationID == id;
      }
    }
  }

  // ----- The runtime -----

  /** The version last applied to the runtime is the actor's current one, with its spec, or the
      one after it, although applies may take effect and still fail. */
  lemma RuntimeInStep(identity: DeploymentIdentity, policy: Policy, continueAfter: int,
                      machines: seq<Machine>, commands: seq<Command>, oracle: nat -> Answers, i: nat)
    requires Life(identity, policy, continueAfter, machines, commands, oracle) && i < |machines|
    ensures InStep(machines[i].runtime, machines[i].actor.current)
  {
    hide Life;
    LifeReached(identity, policy, continueAfter, machines, commands, oracle, i);
    hide KeysInv, MemoryInv, AnsweredInv, InStep, HistoryOk;
  }

  // ----- Version history -----

  predicate Contiguous(a: ActorState) {
    && (a.current.None? <==> a.versions == []) && (a.lastHealthy.None? <==> a.current.None?)
    && forall k | 0 <= k < |a.versions| :: a.versions[k].versionID == IDOf(a.current) - |a.versions| + 1 + k
  }

  /** The recorded IDs are consecutive and end at the current version's; the current version, the
      last healthy one and the last record differ in their observed health at most. */
  lemma VersionsContiguous(identity: DeploymentIdentity, policy: Policy, continueAfter: int,
                           machines: seq<Machine>, commands: seq<Command>, oracle: nat -> Answers, i: nat)
    requires Life(identity, policy, continueAfter, machines, commands, oracle) && i < |machines|
    ensures var a := machines[i].actor;
            && Contiguous(a)
            && (a.versions != [] ==>
                  && SameButHealth(Some(a.versions[|a.versions| - 1]), a.current)
                  && SameButHealth(Some(a.versions[|a.versions| - 1]), a.lastHealthy))
  {
    hide Life;
    LifeReached(identity, policy, continueAfter, machines, commands, oracle, i);
    hide KeysInv, MemoryInv, AnsweredInv, VersionsInv, Contiguous, SameButHealth;
    HistoryContiguous(machines[i], EffectivePolicy(identity, policy));
  }

  lemma HistoryContiguous(m: Machine, policy: Policy)
    requires VersionsInv(m, policy)
    ensures Contiguous(m.actor)
    ensures m.actor.versions != [] ==>
              && SameButHealth(Some(m.actor.versions[|m.actor.versions| - 1]), m.actor.current)
              && SameButHealth(Some(m.actor.versions[|m.actor.versions| - 1]), m.actor.lastHealthy)
  {
    hide NewVersionOk, InStep, AliasOk;
    var n := |m.history| - |m.actor.versions|;
    assert m.history != [] ==> RecordOk(m.history, |m.history| - 1, policy);
    assert IDOf(Latest(m.history)) == |m.history|;
    forall k | 0 <= k < |m.actor.versions|
      ensures m.actor.versions[k].versionID == |m.history| - |m.actor.versions| + 1 + k
    {
      assert RecordOk(m.history, n + k, policy);
      assert m.actor.versions[k] == Recorded(m.history)[n + k] == m.history[n + k].version;
    }
    if m.actor.versions != [] {
      assert m.actor.versions[|m.actor.versions| - 1] == Recorded(m.history)[|m.history| - 1];
    }
  }

  lemma {:induction false} FindConsecutive(versions: seq<DeploymentVersion>, first: int, id: int)
    requires forall k | 0 <= k < |versions| :: versions[k].versionID == first + k
    ensures FindVersion(versions, id).Some? <==> first <= id < first + |versions|
    ensures FindVersion(versions, id).Some? ==> FindVersion(versions, id).value == versions[id - first]
  {
    if versions != [] {
      FindConsecutive(versions[1..], first + 1, id);
    }
  }

  /** Rollback's search finds a version exactly when its ID is among the last ones kept, and then
      finds that version; otherwise it falls back on the current version's spec. */
  lemma RollbackFinds(a: ActorState, target: int)
    requires Contiguous(a)
    requires a.current.Some? ==> SameButHealth(a.current, a.lastHealthy)
    ensures FindVersion(a.versions, target).Some? <==> IDOf(a.current) - |a.versions| < target <= IDOf(a.current)
    ensures RollbackSpec(a, target)
         == if a.current.None? then None
            else if IDOf(a.current) - |a.versions| < target <= IDOf(a.current)
              then Some(a.versions[target - (IDOf(a.current) - |a.versions| + 1)].spec)
            else Some(a.current.value.spec)
  {
    FindConsecutive(a.versions, IDOf(a.current) - |a.versions| + 1, target);
  }

  /** The spec a command asks for. */
  function Requested(a: ActorState, command: Command): Option<DeploymentSpec> {
    match command.kind
    case RollbackToVersion => RollbackSpec(a, command.targetVersion)
    case ScaleTo => if a.current.None? then None else Some(a.current.value.spec.(parallelism := command.parallelism))
    case _ => command.targetSpec
  }

  /** A command that records a version records one, numbered after the current one, with the spec it
      asks for: a rollback the one it searched for, a scale-to the current one but for parallelism. */
  lemma NewVersionsSpec(a: ActorState, command: Command, answers: Answers)
    requires !Duplicate(a, command) && AliasOk(a)
    ensures var o := Execute(a, command, answers);
            o.deployed.Some? ==>
              && o.state.versions == a.versions + [o.deployed.value.version]
              && o.deployed.value.version.versionID == NextID(a.current)
              && Some(o.deployed.value.version.spec) == Requested(a, command)
  {
    ExecuteEffect(a, command, answers, None);
    var a' := a.(status := Operating, lastError := None);
    assert Requested(a', command) == Requested(a, command);
    PerformSpec(a', command, OpenRecord(command, answers), answers);
    hide Perform, Requested, ValidateSpec, ClassifyChange, PassesGate, InStep, Runtime, Duplicate;
  }

  lemma PerformSpec(a: ActorState, command: Command, record: OperationRecord, answers: Answers)
    requires AliasOk(a)
    ensures var o := Perform(a, command, record, answers);
            o.deployed.Some? ==> Some(o.deployed.value.version.spec) == Requested(a, command)
  {
    hide Deploy, Effect, RollbackSpec, TakeSavepoint;
    match command.kind
    case DeployVersion =>
      DeployEffect(a, command.targetSpec, command.approved, command, record, answers, None);
    case RollbackToVersion =>
      DeployEffect(a, RollbackSpec(a, command.targetVersion), true, command, record, answers, None);
    case ScaleTo =>
      DeployEffect(a, Requested(a, command), command.approved, command, record, answers, None);
    case RequestSavepoint => SavepointRecordsNothing(a, command, record, answers);
    case _ =>
  }

  lemma SavepointRecordsNothing(a: ActorState, command: Command, record: OperationRecord, answers: Answers)
    ensures TakeSavepoint(a, command, record, answers).deployed.None?
  {
  }

  // ----- Admission -----

  /** What holds of a recorded version and of the version it replaced. */
  predicate Admissible(d: Deployed, policy: Policy) {
    var spec := d.version.spec;
    && Text.Contains(spec.imageDigest, "@sha256:")
    && 0 < spec.parallelism <= spec.maxParallelism
    && (d.previous.Some? && spec.maxParallelism < d.previous.value.spec.maxParallelism ==>
        spec.state.freshStartApproved)
    && (ClassifyChange(d.previous, spec, policy).requiresApproval ==>
        d.command.approved || d.command.kind == RollbackToVersion)
  }

  /** Over whole runs, by deploy, scale or rollback alike: every recorded spec is pinned and has
      sound parallelism, max parallelism is never lowered without an approved fresh start, and
      a change that needed approval came from an approved command or a rollback. */
  lemma AdmissionOverRuns(identity: DeploymentIdentity, policy: Policy, continueAfter: int,
                          machines: seq<Machine>, commands: seq<Command>, oracle: nat -> Answers, i: nat)
    requires Life(identity, policy, continueAfter, machines, commands, oracle) && i < |machines|
    ensures var m := machines[i];
            && Suffix(m.actor.versions, Recorded(m.history))
            && forall k | 0 <= k < |m.history| ::
                 && Admissible(m.history[k], EffectivePolicy(identity, policy))
                 && SameButHealth(Before(m.history, k), m.history[k].previous)
  {
    hide Life;
    LifeReached(identity, policy, continueAfter, machines, commands, oracle, i);
    hide KeysInv, MemoryInv, AnsweredInv, VersionsInv, Admissible, SameButHealth;
    HistoryAdmissible(machines[i], EffectivePolicy(identity, policy));
  }

  lemma HistoryAdmissible(m: Machine, policy: Policy)
    requires VersionsInv(m, policy)
    ensures Suffix(m.actor.versions, Recorded(m.history))
    ensures forall k | 0 <= k < |m.history| ::
              Admissible(m.history[k], policy) && SameButHealth(Before(m.history, k), m.history[k].previous)
  {
    hide InStep, AliasOk, PassesGate, ValidateSpec, ClassifyChange, Admissible, NewVersionOk;
    forall k | 0 <= k < |m.history|
      ensures Admissible(m.history[k], policy) && SameButHealth(Before(m.history, k), m.history[k].previous)
    {
      assert RecordOk(m.history, k, policy);
      assert k > 0 ==> RecordOk(m.history, k - 1, policy);
      NewVersionAdmissible(m.history[k], policy, k);
    }
  }

  lemma NewVersionAdmissible(d: Deployed, policy: Policy, k: nat)
    requires NewVersionOk(d, policy) && IDOf(d.previous) == k && (d.previous.None? <==> k == 0)
    ensures Admissible(d, policy)
  {
  }

  // ----- Health -----

  /** Every recorded version is marked healthy and passes the gate of the actor's policy, which is
      the one it started with in every generation. */
  lemma RecordedVersionsHealthy(identity: DeploymentIdentity, policy: Policy, continueAfter: int,
                                machines: seq<Machine>, commands: seq<Command>, oracle: nat -> Answers, i: nat)
    requires Life(identity, policy, continueAfter, machines, commands, oracle) && i < |machines|
    ensures machines[i].actor.policy == EffectivePolicy(identity, policy)
    ensures forall k | 0 <= k < |machines[i].actor.versions| ::
              var v := machines[i].actor.versions[k];
              v.health.healthy && PassesGate(v.health, EffectivePolicy(identity, policy))
  {
    hide Life;
    LifeReached(identity, policy, continueAfter, machines, commands, oracle, i);
    hide KeysInv, MemoryInv, AnsweredInv, VersionsInv, PassesGate;
    HistoryHealthy(machines[i], EffectivePolicy(identity, policy));
  }

  lemma HistoryHealthy(m: Machine, policy: Policy)
    requires VersionsInv(m, policy)
    ensures m.actor.policy == policy
    ensures forall k | 0 <= k < |m.actor.versions| ::
              m.actor.versions[k].health.healthy && PassesGate(m.actor.versions[k].health, policy)
  {
    hide InStep, AliasOk, SameButHealth, PassesGate, ValidateSpec, ClassifyChange;
    var n := |m.history| - |m.actor.versions|;
    forall k | 0 <= k < |m.actor.versions|
      ensures m.actor.versions[k].health.healthy && PassesGate(m.actor.versions[k].health, policy)
    {
      assert m.actor.versions[k] == Recorded(m.history)[n + k] == m.history[n + k].version;
      assert RecordOk(m.history, n + k, policy);
    }
  }

  /** No later command, resume included, alters a recorded version: while an ID is on record, the
      record under it stays the same. */
  lemma RecordsNeverChange(identity: DeploymentIdentity, policy: Policy, continueAfter: int,
                           machines: seq<Machine>, commands: seq<Command>, oracle: nat -> Answers,
                           i: nat, j: nat, k: nat, l: nat)
    requires Life(identity, policy, continueAfter, machines, commands, oracle) && i <= j < |machines|
    requires k < |machines[i].actor.versions| && l < |machines[j].actor.versions|
    requires machines[i].actor.versions[k].versionID == machines[j].actor.versions[l].versionID
    ensures machines[i].actor.versions[k] == machines[j].actor.versions[l]
  {
    var p := EffectivePolicy(identity, policy);
    LifeReached(identity, policy, continueAfter, machines, commands, oracle, i);
    hide Reached, Follows;
    RunReached(machines, commands, oracle, p, i, j);
    SameRecord(machines[i], machines[j], p, k, l);
  }

  lemma SameRecord(m: Machine, m': Machine, policy: Policy, k: nat, l: nat)
    requires Reached(m, policy) && Reached(m', policy) && Extends(m, m')
    requires k < |m.actor.versions| && l < |m'.actor.versions|
    requires m.actor.versions[k].versionID == m'.actor.versions[l].versionID
    ensures m.actor.versions[k] == m'.actor.versions[l]
  {
    hide KeysInv, MemoryInv, AnsweredInv, InStep, AliasOk, NewVersionOk, SameButHealth;
    var n, n' := |m.history| - |m.actor.versions|, |m'.history| - |m'.actor.versions|;
    assert m.actor.versions[k] == Recorded(m.history)[n + k] == m.history[n + k].version;
    assert m'.actor.versions[l] == Recorded(m'.history)[n' + l] == m'.history[n' + l].version;
    assert m.history[n + k] == m'.history[n + k];
    assert RecordOk(m.history, n + k, policy) && RecordOk(m'.history, n' + l, policy);
  }

  /** A resume that succeeds writes what it observed into the current version. Right after a
      deployment the last healthy version is the same object and is overwritten too, even by a
      summary that fails the gate; after a restart it is not. */
  lemma ResumeOverwritesSharedHealth(a: ActorState, command: Command, answers: Answers)
    requires !Duplicate(a, command) && AliasOk(a) && command.kind == Resume
    requires Execute(a, command, answers).error.None?
    ensures var b := Execute(a, command, answers).state;
            && a.current.Some? && answers.health.Some?
            && b.current == Some(a.current.value.(health := answers.health.value))
            && b.lastHealthy == (if a.aliased then b.current else a.lastHealthy)
            && b.versions == a.versions
  {
  }
}
