// What holds in every state the deployment actor can reach, over any number of generations.
module ActorTheorems {
  import opened Wrappers
  import opened Domain
  import opened Rollout
  import opened Actor
  import Text

  // ----- The effect of one command -----

  lemma DeployEffect(a: ActorState, target: Option<DeploymentSpec>, approved: bool, command: Command,
                     record: OperationRecord, answers: Answers, runtime: Option<DeploymentVersion>)
    requires approved <==> command.approved || command.kind == RollbackToVersion
    requires command.kind in {DeployVersion, RollbackToVersion, ScaleTo} && AliasOk(a)
    ensures Effect(a, record, command, runtime, Deploy(a, target, approved, command, record, answers))
    ensures var o := Deploy(a, target, approved, command, record, answers);
            o.deployed.Some? ==> target == Some(o.deployed.value.version.spec)
  {
    if target.Some? && answers.childStarts {
      var child := record.(childWorkflowID := ChildID("flink-rollout/", a.identity, command.operationID));
      RolloutIsOk(a, target.value, approved, command, answers.rollout, runtime);
      var run := RunRollout(InputOf(a, target.value, approved, command), answers.rollout);
      AfterChildEffect(a, target.value, approved, command, child, runtime, run);
    }
  }

  lemma ResumeEffect(a: ActorState, command: Command, record: OperationRecord, answers: Answers,
                     runtime: Option<DeploymentVersion>)
    requires AliasOk(a)
    ensures Effect(a, record, command, runtime, ResumeJob(a, record, answers))
  {
    hide Runtime;
    QuietEvents(runtime, SetJobState(a, "RUNNING", answers).0);
    QuietEvents(runtime, ResumeJob(a, record, answers).trace);
  }

  lemma SavepointEffect(a: ActorState, command: Command, record: OperationRecord, answers: Answers,
                        runtime: Option<DeploymentVersion>)
    requires AliasOk(a)
    ensures Effect(a, record, command, runtime, TakeSavepoint(a, command, record, answers))
  {
    hide Runtime;
    QuietEvents(runtime, TakeSavepoint(a, command, record, answers).trace);
  }

  lemma RollbackEffect(a: ActorState, command: Command, record: OperationRecord, answers: Answers,
                       runtime: Option<DeploymentVersion>)
    requires AliasOk(a) && command.kind == RollbackToVersion
    ensures Effect(a, record, command, runtime, Rollback(a, command, record, answers))
  {
    hide Deploy, Effect, RollbackSpec;
    RejectedEffect(a, command, record, runtime, RollbackTargetMissing);
    DeployEffect(a, RollbackSpec(a, command.targetVersion), true, command, record, answers, runtime);
  }

  lemma RejectedEffect(a: ActorState, command: Command, record: OperationRecord, runtime: Option<DeploymentVersion>,
                       e: OperationError)
    requires AliasOk(a)
    ensures Effect(a, record, command, runtime, Outcome(a, record, [], Some(e), None))
  {
  }

  lemma ScaleEffect(a: ActorState, command: Command, record: OperationRecord, answers: Answers,
                    runtime: Option<DeploymentVersion>)
    requires AliasOk(a) && command.kind == ScaleTo
    ensures Effect(a, record, command, runtime, Scale(a, command, record, answers))
  {
    hide Deploy, Effect;
    RejectedEffect(a, command, record, runtime, NoVersionYet);
    RejectedEffect(a, command, record, runtime, ScaleRejected);
    if a.current.Some? {
      DeployEffect(a, Some(a.current.value.spec.(parallelism := command.parallelism)), command.approved, command,
          record, answers, runtime);
    }
  }

  lemma SuspendEffect(a: ActorState, command: Command, record: OperationRecord, answers: Answers,
                      runtime: Option<DeploymentVersion>)
    requires AliasOk(a) && command.kind == Suspend
    ensures Effect(a, record, command, runtime, Perform(a, command, record, answers))
  {
    hide Runtime;
    QuietEvents(runtime, SetJobState(a, "SUSPENDED", answers).0);
  }

  lemma PerformEffect(a: ActorState, command: Command, record: OperationRecord, answers: Answers,
                      runtime: Option<DeploymentVersion>)
    requires AliasOk(a)
    ensures Effect(a, record, command, runtime, Perform(a, command, record, answers))
  {
    hide Deploy, Rollback, Scale, TakeSavepoint, ResumeJob;
    match command.kind
    case DeployVersion => DeployEffect(a, command.targetSpec, command.approved, command, record, answers, runtime);
    case RollbackToVersion => RollbackEffect(a, command, record, answers, runtime);
    case ScaleTo => ScaleEffect(a, command, record, answers, runtime);
    case RequestSavepoint => SavepointEffect(a, command, record, answers, runtime);
    case Resume => ResumeEffect(a, command, record, answers, runtime);
    case Suspend => SuspendEffect(a, command, record, answers, runtime);
    case _ =>
  }

  /** One executed command, book-keeping included. */
  predicate Executed(a: ActorState, command: Command, runtime: Option<DeploymentVersion>, o: Outcome) {
    && o.state.identity == a.identity && o.state.policy == a.policy && o.state.pending == a.pending
    && o.state.eventCount == a.eventCount && o.state.continueAfter == a.continueAfter
    && o.state.operations == a.operations + [o.record]
    && o.state.processedKeys == a.processedKeys[Key(command) := command.operationID]
    && o.record.idempotencyKey == Key(command) && o.record.operationID == command.operationID
    && o.record.kind == command.kind && !o.record.status.Running?
    && VersionEffect(a, o)
    && (o.deployed.Some? ==> o.deployed.value.command == command)
    && (Numbered(a.current) && InStep(runtime, a.current) ==> InStep(Runtime(runtime, o.trace), o.state.current))
  }

  lemma ExecuteEffect(a: ActorState, command: Command, answers: Answers, runtime: Option<DeploymentVersion>)
    requires !Duplicate(a, command) && AliasOk(a)
    ensures Executed(a, command, runtime, Execute(a, command, answers))
  {
    var a' := a.(status := Operating, lastError := None);
    var record := OpenRecord(command, answers);
    PerformEffect(a', command, record, answers, runtime);
    SettleEffect(a, command, answers, runtime, Perform(a', command, record, answers));
  }

  lemma SettleEffect(a: ActorState, command: Command, answers: Answers, runtime: Option<DeploymentVersion>, o: Outcome)
    requires Effect(a.(status := Operating, lastError := None), OpenRecord(command, answers), command, runtime, o)
    ensures Executed(a, command, runtime, Settle(command, answers, o))
  {
    RuntimeNext(runtime, o.trace, Audited(command.operationID));
  }

  // ----- Idempotency keys -----

  predicate DistinctKeys(operations: seq<OperationRecord>) {
    forall i, j | 0 <= i < j < |operations| :: operations[i].idempotencyKey != operations[j].idempotencyKey
  }

  predicate Suffix<T(==)>(part: seq<T>, all: seq<T>) {
    |part| <= |all| && part == all[|all| - |part|..]
  }

  /** Among any 51 consecutive operations no key occurs twice. */
  predicate ExactlyOnceWindow(executed: seq<OperationRecord>) {
    forall i, j | 0 <= i < j < |executed| && j - i <= 50 ::
        executed[i].idempotencyKey != executed[j].idempotencyKey
  }

  predicate HasKey(operations: seq<OperationRecord>, key: string) {
    exists i :: 0 <= i < |operations| && operations[i].idempotencyKey == key
  }

  predicate KeysInv(m: Machine) {
    && m.actor.processedKeys == KeyMap(m.actor.operations)
    && DistinctKeys(m.actor.operations)
    && Suffix(m.actor.operations, m.executed)
    && (|m.actor.operations| >= HISTORY_LIMIT || m.actor.operations == m.executed)
    && ExactlyOnceWindow(m.executed)
  }

  lemma {:induction false} KeyMapKeys(operations: seq<OperationRecord>, key: string)
    ensures key in KeyMap(operations) <==> HasKey(operations, key)
  {
    if operations != [] {
      var init := operations[..|operations| - 1];
      KeyMapKeys(init, key);
      if HasKey(init, key) {
        var i :| 0 <= i < |init| && init[i].idempotencyKey == key;
        assert operations[i].idempotencyKey == key;
      }
      if HasKey(operations, key) && !HasKey(init, key) {
        var i :| 0 <= i < |operations| && operations[i].idempotencyKey == key;
      }
    }
  }

  lemma SuffixSnoc<T>(part: seq<T>, all: seq<T>, x: T)
    requires Suffix(part, all)
    ensures Suffix(part + [x], all + [x])
  {
    var n := |all| - |part|;
    assert (all + [x])[n..] == all[n..] + [x];
  }

  lemma WindowSnoc(ops: seq<OperationRecord>, all: seq<OperationRecord>, record: OperationRecord)
    requires Suffix(ops, all) && (|ops| >= HISTORY_LIMIT || ops == all)
    requires !HasKey(ops, record.idempotencyKey)
    requires DistinctKeys(ops) && ExactlyOnceWindow(all)
    ensures DistinctKeys(ops + [record]) && ExactlyOnceWindow(all + [record])
  {
    var all' := all + [record];
    forall i, j | 0 <= i < j < |all'| && j - i <= 50
      ensures all'[i].idempotencyKey != all'[j].idempotencyKey
    {
      if j == |all| {
        assert all[i] == ops[i - (|all| - |ops|)];
      } else {
        assert all'[i] == all[i] && all'[j] == all[j];
      }
    }
  }

  lemma KeyMapSnoc(ops: seq<OperationRecord>, record: OperationRecord)
    ensures KeyMap(ops + [record]) == KeyMap(ops)[record.idempotencyKey := record.operationID]
  {
    assert (ops + [record])[..|ops|] == ops;
  }

  lemma KeysAbsorb(m: Machine, next: Command, o: Outcome)
    requires KeysInv(m) && m.actor.pending != []
    requires !Duplicate(m.actor, next)
    requires Executed(m.actor.(pending := m.actor.pending[1..]), next, m.runtime, o)
    ensures KeysInv(Absorb(m, Some(o)))
  {
    KeyMapKeys(m.actor.operations, Key(next));
    SuffixSnoc(m.actor.operations, m.executed, o.record);
    WindowSnoc(m.actor.operations, m.executed, o.record);
    KeyMapSnoc(m.actor.operations, o.record);
  }

  lemma LastOfSuffix<T>(s: seq<T>, all: seq<T>)
    requires Suffix(s, all)
    ensures Suffix(LastOf(s), all) && |LastOf(s)| == if |s| > HISTORY_LIMIT then HISTORY_LIMIT else |s|
  {
  }

  lemma KeysRestart(m: Machine)
    requires KeysInv(m)
    ensures KeysInv(m.(actor := NextGeneration(m.actor)))
  {
    LastOfSuffix(m.actor.operations, m.executed);
    LastOfDistinct(m.actor.operations);
    RestartedKeys(m.actor);
    hide LastOf, KeyMap, DistinctKeys, ExactlyOnceWindow, Suffix, NextGeneration;
    assert |m.actor.operations| < HISTORY_LIMIT ==> LastOf(m.actor.operations) == m.actor.operations by {
      LastOfShort(m.actor.operations);
    }
  }

  lemma LastOfShort<T>(s: seq<T>)
    ensures |s| <= HISTORY_LIMIT ==> LastOf(s) == s
  {
  }

  lemma LastOfDistinct(operations: seq<OperationRecord>)
    requires DistinctKeys(operations)
    ensures DistinctKeys(LastOf(operations))
  {
  }

  lemma RestartedKeys(a: ActorState)
    ensures NextGeneration(a).operations == LastOf(a.operations)
    ensures NextGeneration(a).processedKeys == KeyMap(LastOf(a.operations))
  {
    hide LastOf, KeyMap, DefaultPolicy;
  }

  // ----- Queue and memory -----

  predicate MemoryInv(m: Machine) {
    && m.taken + m.actor.pending == m.received
    && 0 <= m.actor.eventCount <= m.actor.continueAfter && m.actor.continueAfter > 0
    && |m.actor.operations| <= HISTORY_LIMIT + m.actor.eventCount
    && |m.actor.versions| <= HISTORY_LIMIT + m.actor.eventCount
  }

  /** Every command taken off the queue has been executed, by itself or by an earlier command with
      the same key. */
  predicate AnsweredInv(m: Machine) {
    Answered(m.executed, m.taken)
  }

  predicate Answered(executed: seq<OperationRecord>, taken: seq<Command>) {
    forall i | 0 <= i < |taken| :: HasKey(executed, Key(taken[i]))
  }

  lemma HasKeyGrows(operations: seq<OperationRecord>, more: seq<OperationRecord>, key: string)
    requires HasKey(operations, key) || HasKey(more, key)
    ensures HasKey(operations + more, key)
  {
    if i :| 0 <= i < |operations| && operations[i].idempotencyKey == key {
      assert (operations + more)[i] == operations[i];
    } else {
      var i :| 0 <= i < |more| && more[i].idempotencyKey == key;
      assert (operations + more)[|operations| + i] == more[i];
    }
  }

  lemma SuffixHasKey(part: seq<OperationRecord>, all: seq<OperationRecord>, key: string)
    requires Suffix(part, all) && HasKey(part, key)
    ensures HasKey(all, key)
  {
    var n := |all| - |part|;
    HasKeyGrows(all[..n], part, key);
    assert all == all[..n] + part;
  }

  lemma AnsweredSkip(m: Machine)
    requires AnsweredInv(m) && KeysInv(m) && m.actor.pending != [] && Duplicate(m.actor, m.actor.pending[0])
    ensures AnsweredInv(Absorb(m, None))
  {
    var key := Key(m.actor.pending[0]);
    KeyMapKeys(m.actor.operations, key);
    SuffixHasKey(m.actor.operations, m.executed, key);
    assert m.executed + [] == m.executed;
    AnsweredSnoc(m.executed, [], m.taken, m.actor.pending[0]);
    hide Answered, HasKey, KeyMap, DistinctKeys, Suffix, ExactlyOnceWindow;
  }

  lemma AnsweredSnoc(executed: seq<OperationRecord>, more: seq<OperationRecord>, taken: seq<Command>, next: Command)
    requires Answered(executed, taken) && HasKey(executed + more, Key(next))
    ensures Answered(executed + more, taken + [next])
  {
    forall i | 0 <= i < |taken + [next]| ensures HasKey(executed + more, Key((taken + [next])[i])) {
      if i < |taken| { HasKeyGrows(executed, more, Key(taken[i])); }
    }
  }

  lemma AnsweredAbsorb(m: Machine, next: Command, o: Outcome)
    requires AnsweredInv(m) && m.actor.pending != [] && next == m.actor.pending[0]
    requires o.record.idempotencyKey == Key(next)
    ensures AnsweredInv(Absorb(m, Some(o)))
  {
    assert [o.record][0].idempotencyKey == Key(next);
    HasKeyGrows(m.executed, [o.record], Key(next));
    AnsweredSnoc(m.executed, [o.record], m.taken, next);
    hide Answered, HasKey;
  }

  // ----- Versions -----

  function Recorded(history: seq<Deployed>): seq<DeploymentVersion> {
    seq(|history|, i requires 0 <= i < |history| => history[i].version)
  }

  function Latest(history: seq<Deployed>): Option<DeploymentVersion> {
    if history == [] then None else Some(history[|history| - 1].version)
  }

  /** What came before the k-th recorded version. */
  function Before(history: seq<Deployed>, k: nat): Option<DeploymentVersion>
    requires k <= |history|
  {
    if k == 0 then None else Some(history[k - 1].version)
  }

  /** Recorded versions are numbered 1, 2, 3, ...; each replaced the one before it, was admitted as
      a change from it, and was healthy when it was recorded. */
  predicate HistoryOk(history: seq<Deployed>, policy: Policy) {
    forall i | 0 <= i < |history| :: RecordOk(history, i, policy)
  }

  predicate RecordOk(history: seq<Deployed>, i: nat, policy: Policy)
    requires i < |history|
  {
    && history[i].version.versionID == i + 1
    && NewVersionOk(history[i], policy)
    && SameButHealth(Before(history, i), history[i].previous)
  }

  predicate VersionsInv(m: Machine, policy: Policy) {
    && m.actor.policy == policy
    && HistoryOk(m.history, policy)
    && SameButHealth(Latest(m.history), m.actor.current)
    && SameButHealth(Latest(m.history), m.actor.lastHealthy)
    && AliasOk(m.actor)
    && Suffix(m.actor.versions, Recorded(m.history))
    && (|m.actor.versions| >= HISTORY_LIMIT || |m.actor.versions| == |m.history|)
    && InStep(m.runtime, m.actor.current)
  }

  lemma SameButHealthTransitive(u: Option<DeploymentVersion>, v: Option<DeploymentVersion>,
                                w: Option<DeploymentVersion>)
    requires SameButHealth(u, v) && SameButHealth(v, w)
    ensures SameButHealth(u, w)
  {
  }

  lemma HistorySnoc(history: seq<Deployed>, policy: Policy, current: Option<DeploymentVersion>, d: Deployed)
    requires HistoryOk(history, policy) && SameButHealth(Latest(history), current)
    requires d.previous == current && NewVersionOk(d, policy)
    ensures HistoryOk(history + [d], policy) && Latest(history + [d]) == Some(d.version)
    ensures Recorded(history + [d]) == Recorded(history) + [d.version]
  {
    var history' := history + [d];
    assert history != [] ==> RecordOk(history, |history| - 1, policy);
    assert IDOf(Latest(history)) == |history|;
    hide NewVersionOk;
    forall i | 0 <= i < |history'| ensures RecordOk(history', i, policy) {
      if i > 0 { assert history'[i - 1] == history[i - 1]; }
      if i < |history| { assert RecordOk(history, i, policy); }
    }
  }

  lemma VersionsAbsorb(m: Machine, policy: Policy, next: Command, o: Outcome)
    requires VersionsInv(m, policy) && m.actor.pending != []
    requires Executed(m.actor.(pending := m.actor.pending[1..]), next, m.runtime, o)
    ensures VersionsInv(Absorb(m, Some(o)), policy)
  {
    var a := m.actor.(pending := m.actor.pending[1..]);
    assert m.history != [] ==> RecordOk(m.history, |m.history| - 1, policy);
    assert Numbered(a.current) && InStep(m.runtime, a.current);
    match o.deployed
    case Some(d) =>
      HistorySnoc(m.history, policy, a.current, d);
      SuffixSnoc(m.actor.versions, Recorded(m.history), d.version);
      assert Absorb(m, Some(o)).history == m.history + [d];
      assert Absorb(m, Some(o)).actor.current == Some(d.version);
    case None =>
      SameButHealthTransitive(Latest(m.history), m.actor.current, o.state.current);
      SameButHealthTransitive(Latest(m.history), m.actor.lastHealthy, o.state.lastHealthy);
  }

  lemma VersionsRestart(m: Machine, policy: Policy)
    requires VersionsInv(m, policy) && policy != ZERO_POLICY
    ensures VersionsInv(m.(actor := NextGeneration(m.actor)), policy)
  {
    LastOfSuffix(m.actor.versions, Recorded(m.history));
  }

  // ----- Every step -----

  predicate Inv(m: Machine, policy: Policy) {
    && policy != ZERO_POLICY
    && KeysInv(m) && MemoryInv(m) && AnsweredInv(m) && VersionsInv(m, policy)
  }

  /** Between commands the generation is not over. */
  predicate Live(m: Machine) {
    m.actor.eventCount < m.actor.continueAfter
  }

  /** What one machine state owes to an earlier one: nothing recorded is changed or forgotten. */
  predicate Extends(m: Machine, m': Machine) {
    m.executed <= m'.executed && m.history <= m'.history && m.received <= m'.received && m.taken <= m'.taken
  }

  lemma TakeOneInv(m: Machine, policy: Policy, answers: Answers)
    requires Inv(m, policy) && Live(m) && m.actor.pending != []
    ensures Inv(TakeOne(m, answers), policy) && Extends(m, TakeOne(m, answers))
    ensures TakeOne(m, answers).actor.eventCount == m.actor.eventCount + 1 && TakeOne(m, answers).received == m.received
  {
    var next := m.actor.pending[0];
    var a := m.actor.(pending := m.actor.pending[1..]);
    if Duplicate(a, next) {
      SkipInv(m, policy);
    } else {
      ExecuteEffect(a, next, answers, m.runtime);
      AbsorbInv(m, policy, next, Execute(a, next, answers));
    }
  }

  lemma QueueMoves(taken: seq<Command>, pending: seq<Command>)
    requires pending != []
    ensures taken + [pending[0]] + pending[1..] == taken + pending
  {
  }

  lemma SkipInv(m: Machine, policy: Policy)
    requires Inv(m, policy) && Live(m) && m.actor.pending != [] && Duplicate(m.actor, m.actor.pending[0])
    ensures Inv(Absorb(m, None), policy) && Extends(m, Absorb(m, None))
  {
    hide KeysInv, VersionsInv, MemoryInv, AnsweredInv, Absorb, Extends, Duplicate, Live;
    AnsweredSkip(m);
    AbsorbExtends(m, None);
    MemorySkip(m);
    KeysAndVersionsSkip(m, policy);
  }

  lemma MemorySkip(m: Machine)
    requires MemoryInv(m) && Live(m) && m.actor.pending != []
    ensures MemoryInv(Absorb(m, None))
  {
    QueueMoves(m.taken, m.actor.pending);
  }

  lemma KeysAndVersionsSkip(m: Machine, policy: Policy)
    requires KeysInv(m) && VersionsInv(m, policy) && m.actor.pending != []
    ensures KeysInv(Absorb(m, None)) && VersionsInv(Absorb(m, None), policy)
  {
  }

  lemma AbsorbInv(m: Machine, policy: Policy, next: Command, o: Outcome)
    requires Inv(m, policy) && Live(m) && m.actor.pending != [] && next == m.actor.pending[0]
    requires !Duplicate(m.actor, next)
    requires Executed(m.actor.(pending := m.actor.pending[1..]), next, m.runtime, o)
    ensures Inv(Absorb(m, Some(o)), policy) && Extends(m, Absorb(m, Some(o)))
    ensures Absorb(m, Some(o)).actor.eventCount == m.actor.eventCount + 1
  {
    MemoryAbsorb(m, next, o);
    KeysAbsorb(m, next, o);
    VersionsAbsorb(m, policy, next, o);
    AnsweredAbsorb(m, next, o);
    AbsorbExtends(m, Some(o));
    hide Executed, KeysInv, VersionsInv, MemoryInv, AnsweredInv, Absorb, Extends, Duplicate, Live;
  }

  lemma AbsorbExtends(m: Machine, o: Option<Outcome>)
    requires m.actor.pending != []
    ensures Extends(m, Absorb(m, o))
  {
  }

  lemma MemoryAbsorb(m: Machine, next: Command, o: Outcome)
    requires MemoryInv(m) && Live(m) && m.actor.pending != []
    requires Executed(m.actor.(pending := m.actor.pending[1..]), next, m.runtime, o)
    ensures MemoryInv(Absorb(m, Some(o))) && Absorb(m, Some(o)).actor.eventCount == m.actor.eventCount + 1
  {
    hide InStep, Runtime, NewVersionOk, SameButHealth, AliasOk;
    QueueMoves(m.taken, m.actor.pending);
  }

  lemma RestartInv(m: Machine, policy: Policy)
    requires Inv(m, policy)
    ensures Inv(m.(actor := NextGeneration(m.actor)), policy) && Live(m.(actor := NextGeneration(m.actor)))
  {
    KeysRestart(m);
    VersionsRestart(m, policy);
    MemoryRestart(m);
    hide KeysInv, VersionsInv, MemoryInv, NextGeneration;
  }

  lemma MemoryRestart(m: Machine)
    requires MemoryInv(m)
    ensures var m' := m.(actor := NextGeneration(m.actor)); MemoryInv(m') && Live(m')
  {
    hide KeyMap, DefaultPolicy;
  }

  lemma {:induction false} DrainInv(m: Machine, policy: Policy, oracle: nat -> Answers)
    requires Inv(m, policy) && Live(m)
    ensures Inv(Drain(m, oracle), policy) && Live(Drain(m, oracle)) && Extends(m, Drain(m, oracle))
    ensures Drain(m, oracle).received == m.received
    ensures |m.actor.pending| <= 1 ==> Drain(m, oracle).actor.pending == []
    decreases |m.actor.pending|
  {
    if m.actor.pending == [] {
      SamePast(m, m);
    } else {
      hide Inv, Live, Extends, TakeOne, NextGeneration;
      var answers := oracle(|m.taken|);
      var m' := TakeOne(m, answers);
      TakeOneInv(m, policy, answers);
      if MustRestart(m', m.actor.pending[0]) {
        RestartInv(m', policy);
        SamePast(m', m'.(actor := NextGeneration(m'.actor)));
        ExtendsTransitive(m, m', m'.(actor := NextGeneration(m'.actor)));
        RestartQueue(m'.actor);
      } else {
        StaysLive(m', m.actor.pending[0], policy);
        DrainInv(m', policy, oracle);
        ExtendsTransitive(m, m', Drain(m', oracle));
      }
    }
  }

  lemma SamePast(m: Machine, m': Machine)
    requires m' == m.(actor := m'.actor)
    ensures Extends(m, m')
  {
  }

  lemma RestartQueue(a: ActorState)
    ensures NextGeneration(a).pending == a.pending
  {
    hide LastOf, KeyMap, DefaultPolicy;
  }

  lemma StaysLive(m: Machine, next: Command, policy: Policy)
    requires !MustRestart(m, next)
    ensures Live(m)
  {
  }

  predicate Reached(m: Machine, policy: Policy) {
    Inv(m, policy) && Live(m) && m.actor.pending == []
  }

  lemma ReceiveInv(m: Machine, policy: Policy, command: Command, oracle: nat -> Answers)
    requires Reached(m, policy)
    ensures Reached(Receive(m, command, oracle), policy) && Extends(m, Receive(m, command, oracle))
    ensures Receive(m, command, oracle).received == m.received + [command]
  {
    var m' := m.(received := m.received + [command], actor := m.actor.(pending := m.actor.pending + [command]));
    assert Inv(m', policy);
    DrainInv(m', policy, oracle);
  }

  function EffectivePolicy(identity: DeploymentIdentity, policy: Policy): Policy {
    if policy == ZERO_POLICY then DefaultPolicy(identity.environment) else policy
  }

  lemma InitialKeys(identity: DeploymentIdentity, policy: Policy, continueAfter: int)
    ensures KeysInv(Initial(identity, policy, continueAfter)) && MemoryInv(Initial(identity, policy, continueAfter))
    ensures AnsweredInv(Initial(identity, policy, continueAfter))
  {
  }

  lemma InitialVersions(identity: DeploymentIdentity, policy: Policy, continueAfter: int)
    ensures VersionsInv(Initial(identity, policy, continueAfter), EffectivePolicy(identity, policy))
  {
  }

  lemma InitialReached(identity: DeploymentIdentity, policy: Policy, continueAfter: int)
    ensures Reached(Initial(identity, policy, continueAfter), EffectivePolicy(identity, policy))
  {
    InitialKeys(identity, policy, continueAfter);
    InitialVersions(identity, policy, continueAfter);
    hide KeysInv, MemoryInv, VersionsInv, AnsweredInv;
  }

  lemma ExtendsTransitive(m: Machine, m': Machine, m'': Machine)
    requires Extends(m, m') && Extends(m', m'')
    ensures Extends(m, m'')
  {
  }

  lemma FollowsReached(m: Machine, policy: Policy, command: Command, oracle: nat -> Answers, m': Machine)
    requires Reached(m, policy) && Follows(m, command, oracle, m')
    ensures Reached(m', policy) && Extends(m, m') && m'.received == m.received + [command]
  {
    ReceiveInv(m, policy, command, oracle);
  }

  /** From a reached state, every state of a run is reached, and nothing of the past is lost. */
  lemma {:induction false} RunReached(machines: seq<Machine>, commands: seq<Command>, oracle: nat -> Answers,
                                      policy: Policy, i: nat, j: nat)
    requires Trajectory(machines, commands, oracle) && i <= j < |machines|
    requires Reached(machines[i], policy)
    ensures Reached(machines[j], policy) && Extends(machines[i], machines[j])
    ensures machines[j].received == machines[i].received + commands[i..j]
    decreases j - i
  {
    hide Inv, Live, Follows, Reached;
    if i < j {
      RunReached(machines, commands, oracle, policy, i, j - 1);
      assert Follows(machines[j - 1], commands[j - 1], oracle, machines[j]);
      FollowsReached(machines[j - 1], policy, commands[j - 1], oracle, machines[j]);
      ExtendsTransitive(machines[i], machines[j - 1], machines[j]);
      assert commands[i..j] == commands[i..j - 1] + [commands[j - 1]];
    }
  }
}
