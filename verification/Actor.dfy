// The deployment actor, as a function of its state, the commands it receives and what the outside
// world answers: one command at a time off a queue, idempotency keys, version history, and a
// restart (continue-as-new) that truncates all of it.
module Actor {
  import opened Wrappers
  import opened Domain
  import opened Rollout

  const HISTORY_LIMIT: nat := 50

  datatype CommandType =
    | DeployVersion
    | RequestSavepoint
    | Suspend
    | Resume
    | RollbackToVersion
    | ScaleTo
    | EnableAutoscaler
    | FreezeAutoscaler
    | ContinueAsNew
    | Unsupported(name: string)

  datatype Command = Command(
    operationID: string, idempotencyKey: string, kind: CommandType, requester: string,
    targetSpec: Option<DeploymentSpec>, targetVersion: int, parallelism: int, approved: bool, incident: bool)

  datatype OperationError =
    | RolloutFailed(error: RolloutError)
    | ChildNotStarted
    | ActivityError
    | TargetSpecMissing
    | NoVersionYet
    | ScaleRejected
    | RollbackTargetMissing
    | UnsupportedCommand

  /** The text of OperationRecord.Result. */
  datatype Note =
    | NoNote
    | Completed
    | VersionHealthy(versionID: int)
    | SavepointAt(uri: string)
    | Failure(error: OperationError)

  datatype OperationStatus = Running | Succeeded | Failed

  datatype OperationRecord = OperationRecord(
    operationID: string, idempotencyKey: string, requester: string, kind: CommandType, status: OperationStatus,
    childWorkflowID: string, leaseID: string, note: Note, startedAt: int, completedAt: int)

  datatype ActorStatus = Idle | Operating | ActorFailed | Suspended

  /** `aliased`: CurrentVersion and LastHealthyVersion point at one object, not at two equal ones. */
  datatype ActorState = ActorState(
    identity: DeploymentIdentity, policy: Policy, status: ActorStatus,
    current: Option<DeploymentVersion>, lastHealthy: Option<DeploymentVersion>, aliased: bool,
    versions: seq<DeploymentVersion>, lastSavepoint: Option<SavepointRecord>,
    operations: seq<OperationRecord>, processedKeys: map<string, string>, pending: seq<Command>,
    autoscalerFrozen: bool, autoscalerEnabled: bool, lastError: Option<OperationError>,
    eventCount: int, continueAfter: int)

  /** What the outside world answers while one command is processed. */
  datatype Answers = Answers(
    now: int, done: int, childStarts: bool, rollout: RolloutAnswers, savepoint: SavepointAnswers,
    jobStateSet: bool, health: Option<HealthSummary>)

  /** A version the actor recorded, the version it replaced, and what let it through. */
  datatype Deployed = Deployed(version: DeploymentVersion, previous: Option<DeploymentVersion>, approved: bool,
                               command: Command)

  datatype Outcome = Outcome(
    state: ActorState, record: OperationRecord, trace: seq<Event>, error: Option<OperationError>,
    deployed: Option<Deployed>)

  function ChildID(prefix: string, identity: DeploymentIdentity, operationID: string): string {
    prefix + identity.environment + "/" + identity.namespace + "/" + identity.name + "/" + operationID
  }

  // ----- The commands -----

  function InputOf(a: ActorState, target: DeploymentSpec, approved: bool, command: Command): RolloutInput {
    RolloutInput(a.identity, a.current, target, a.policy, command.operationID, approved, command.incident)
  }

  function Deploy(a: ActorState, target: Option<DeploymentSpec>, approved: bool, command: Command,
                  record: OperationRecord, answers: Answers): Outcome
  {
    if target.None? then Outcome(a, record, [], Some(TargetSpecMissing), None)
    else
      var child := record.(childWorkflowID := ChildID("flink-rollout/", a.identity, command.operationID));
      if !answers.childStarts then Outcome(a, child, [], Some(ChildNotStarted), None)
      else
        var run := RunRollout(InputOf(a, target.value, approved, command), answers.rollout);
        AfterChild(a, approved, command, child, run)
  }

  /** What the parent makes of the finished rollout. */
  function AfterChild(a: ActorState, approved: bool, command: Command, record: OperationRecord,
                      run: RolloutRun): Outcome {
    match run.outcome
    case Err(e) => Outcome(a, record, run.trace, Some(RolloutFailed(e)), None)
    case Ok(result) =>
      var version := result.version;
      Outcome(
        a.(lastSavepoint := if result.savepoint.Some? then result.savepoint else a.lastSavepoint,
           current := Some(version), lastHealthy := Some(version), aliased := true,
           versions := a.versions + [version], autoscalerEnabled := version.spec.autoscalerEnabled),
        record.(leaseID := if result.leaseID != "" then result.leaseID else record.leaseID,
            note := VersionHealthy(version.versionID)),
        run.trace, None, Some(Deployed(version, a.current, approved, command)))
  }

  function TakeSavepoint(a: ActorState, command: Command, record: OperationRecord, answers: Answers): Outcome {
    if a.current.None? then Outcome(a, record, [], Some(NoVersionYet), None)
    else
      var child := record.(childWorkflowID := ChildID("flink-savepoint/", a.identity, command.operationID));
      if !answers.childStarts then Outcome(a, child, [], Some(ChildNotStarted), None)
      else
        var (trace, taken) := SavepointRun(answers.savepoint);
        if taken.None? then Outcome(a, child, trace, Some(ActivityError), None)
        else Outcome(a.(lastSavepoint := taken),
                     child.(note := if taken.value.uri == "" then NoNote else SavepointAt(taken.value.uri)), trace,
                         None, None)
  }

  /** setState, alone. */
  function SetJobState(a: ActorState, desired: string, answers: Answers): (seq<Event>, Option<OperationError>) {
    if a.current.None? then ([], Some(NoVersionYet))
    else ([JobStateSet(desired, answers.jobStateSet)], if answers.jobStateSet then None else Some(ActivityError))
  }

  /** Resume writes the observed health into the current version, and through the shared object
      into the last healthy one too. */
  function ResumeJob(a: ActorState, record: OperationRecord, answers: Answers): Outcome {
    var (trace, error) := SetJobState(a, "RUNNING", answers);
    if error.Some? then Outcome(a, record, trace, error, None)
    else
      var trace' := trace + [Observed(IDOf(a.current), answers.health)];
      if answers.health.None? then Outcome(a, record, trace', Some(ActivityError), None)
      else
        var seen := if a.current.Some? then Some(a.current.value.(health := answers.health.value)) else None;
        var b := a.(current := seen, lastHealthy := if a.aliased then seen else a.lastHealthy);
        Outcome(b, record, trace', None, None)
  }

  function FindVersion(versions: seq<DeploymentVersion>, id: int): Option<DeploymentVersion> {
    if versions == [] then None
    else if versions[0].versionID == id then Some(versions[0])
    else FindVersion(versions[1..], id)
  }

  function RollbackSpec(a: ActorState, target: int): Option<DeploymentSpec> {
    var found := FindVersion(a.versions, target);
    if found.Some? then Some(found.value.spec)
    else if a.lastHealthy.Some? then Some(a.lastHealthy.value.spec)
    else None
  }

  function Rollback(a: ActorState, command: Command, record: OperationRecord, answers: Answers): Outcome {
    var spec := RollbackSpec(a, command.targetVersion);
    if spec.None? then Outcome(a, record, [], Some(RollbackTargetMissing), None)
    else Deploy(a, spec, true, command, record, answers)
  }

  function Scale(a: ActorState, command: Command, record: OperationRecord, answers: Answers): Outcome {
    if a.current.None? then Outcome(a, record, [], Some(NoVersionYet), None)
    else if a.autoscalerEnabled && !a.autoscalerFrozen then Outcome(a, record, [], Some(ScaleRejected), None)
    else
      var spec := a.current.value.spec.(parallelism := command.parallelism);
      Deploy(a, Some(spec), command.approved, command, record, answers)
  }

  function Perform(a: ActorState, command: Command, record: OperationRecord, answers: Answers): Outcome {
    match command.kind
    case DeployVersion => Deploy(a, command.targetSpec, command.approved, command, record, answers)
    case RequestSavepoint => TakeSavepoint(a, command, record, answers)
    case Suspend =>
      var (trace, error) := SetJobState(a, "SUSPENDED", answers);
      Outcome(if error.None? then a.(status := Suspended) else a, record, trace, error, None)
    case Resume => ResumeJob(a, record, answers)
    case RollbackToVersion => Rollback(a, command, record, answers)
    case ScaleTo => Scale(a, command, record, answers)
    case EnableAutoscaler => Outcome(a.(autoscalerEnabled := true), record, [], None, None)
    case FreezeAutoscaler => Outcome(a.(autoscalerFrozen := true), record, [], None, None)
    case ContinueAsNew => Outcome(a, record, [], None, None)
    case Unsupported(_) => Outcome(a, record, [], Some(UnsupportedCommand), None)
  }

  // ----- Processing one command -----

  function Key(command: Command): string {
    if command.idempotencyKey == "" then command.operationID else command.idempotencyKey
  }

  predicate Duplicate(a: ActorState, command: Command) {
    Key(command) in a.processedKeys
  }

  function OpenRecord(command: Command, answers: Answers): OperationRecord {
    OperationRecord(command.operationID, Key(command), command.requester, command.kind, Running, "", "", NoNote,
        answers.now, 0)
  }

  function CloseRecord(record: OperationRecord, error: Option<OperationError>, done: int): OperationRecord {
    match error
    case Some(e) => record.(status := Failed, note := Failure(e), completedAt := done)
    case None => record.(status := Succeeded, note := if record.note.NoNote? then Completed else record.note,
        completedAt := done)
  }

  /** The book-keeping after a command. The audit activity comes last and its failure is ignored. */
  function Settle(command: Command, answers: Answers, o: Outcome): Outcome {
    var record := CloseRecord(o.record, o.error, answers.done);
    var status := if o.error.Some? then ActorFailed else if o.state.status == Suspended then Suspended else Idle;
    var state := o.state.(status := status, lastError := o.error,
                          operations := o.state.operations + [record],
                          processedKeys := o.state.processedKeys[Key(command) := command.operationID]);
    Outcome(state, record, o.trace + [Audited(command.operationID)], o.error, o.deployed)
  }

  /** processCommand, for a command whose key is not remembered. */
  function Execute(a: ActorState, command: Command, answers: Answers): Outcome
    requires !Duplicate(a, command)
  {
    var begun := a.(status := Operating, lastError := None);
    Settle(command, answers, Perform(begun, command, OpenRecord(command, answers), answers))
  }

  // ----- What a command can change -----

  /** A command leaves the rest of the actor alone; Execute does the book-keeping around it. */
  predicate Framed(a: ActorState, b: ActorState) {
    && b.identity == a.identity && b.policy == a.policy
    && b.operations == a.operations && b.processedKeys == a.processedKeys && b.pending == a.pending
    && b.eventCount == a.eventCount && b.continueAfter == a.continueAfter
  }

  predicate SameButHealth(v: Option<DeploymentVersion>, w: Option<DeploymentVersion>) {
    v.Some? == w.Some? && (v.Some? ==> w.value == v.value.(health := w.value.health))
  }

  /** One object has one value. */
  predicate AliasOk(a: ActorState) {
    a.aliased ==> a.current == a.lastHealthy
  }

  /** Either no version was recorded, and the two pointers still mean the same versions; or one
      was: admitted, healthy, next in line, and now current. */
  predicate VersionEffect(a: ActorState, o: Outcome) {
    match o.deployed
    case None =>
      && o.state.versions == a.versions
      && SameButHealth(a.current, o.state.current) && SameButHealth(a.lastHealthy, o.state.lastHealthy)
      && o.state.aliased == a.aliased && AliasOk(o.state)
      && (!a.aliased ==> o.state.lastHealthy == a.lastHealthy)
    case Some(d) =>
      && o.error.None? && d.previous == a.current && NewVersionOk(d, a.policy)
      && o.state.versions == a.versions + [d.version]
      && o.state.current == o.state.lastHealthy == Some(d.version) && o.state.aliased
  }

  /** The version follows its predecessor, passed the gate, and its spec was admitted as a change
      from the predecessor's. */
  predicate NewVersionOk(d: Deployed, policy: Policy) {
    && d.version.versionID == NextID(d.previous)
    && d.version.health.healthy && PassesGate(d.version.health, policy)
    && Admitted(d, policy)
    && (d.approved <==> d.command.approved || d.command.kind == RollbackToVersion)
    && d.command.kind in {DeployVersion, RollbackToVersion, ScaleTo}
  }

  /** Its spec was admitted as a change from its predecessor's. */
  predicate Admitted(d: Deployed, policy: Policy) {
    var change := ClassifyChange(d.previous, d.version.spec, policy);
    ValidateSpec(d.version.spec, change, d.approved, d.command.incident, policy).None?
  }

  predicate SameKeys(record: OperationRecord, record': OperationRecord) {
    record'.operationID == record.operationID && record'.idempotencyKey == record.idempotencyKey
        && record'.kind == record.kind
  }

  /** The version before the first is version 0; the others count up from 1. */
  predicate Numbered(current: Option<DeploymentVersion>) {
    current.Some? ==> current.value.versionID > 0
  }

  /** What the actor relies on of a child that ran. */
  predicate ChildOk(a: ActorState, target: DeploymentSpec, approved: bool, command: Command,
                    runtime: Option<DeploymentVersion>, run: RolloutRun) {
    && (run.outcome.Ok? ==>
          var v := run.outcome.value.version;
          && v.versionID == NextID(a.current) && v.spec == target && v.health.healthy && PassesGate(v.health, a.policy)
          && var change := ClassifyChange(a.current, target, a.policy);
             ValidateSpec(target, change, approved, command.incident, a.policy).None?)
    && (Numbered(a.current) && InStep(runtime, a.current) ==>
          InStep(Runtime(runtime, run.trace), if run.outcome.Ok? then Some(run.outcome.value.version) else a.current))
  }

  lemma RolloutIsOk(a: ActorState, target: DeploymentSpec, approved: bool, command: Command, answers: RolloutAnswers,
                    runtime: Option<DeploymentVersion>)
    ensures ChildOk(a, target, approved, command, runtime, RunRollout(InputOf(a, target, approved, command), answers))
  {
    var input := InputOf(a, target, approved, command);
    if RunRollout(input, answers).outcome.Ok? {
      RolloutResultIsHealthy(input, answers);
    }
    if Numbered(a.current) && InStep(runtime, a.current) {
      RolloutStaysInStep(input, answers, runtime);
    }
  }

  /** All that is said of a command's effect; `runtime` is what ran before it. */
  predicate Effect(a: ActorState, record: OperationRecord, command: Command, runtime: Option<DeploymentVersion>,
                   o: Outcome) {
    && Framed(a, o.state) && VersionEffect(a, o) && SameKeys(record, o.record)
    && (Numbered(a.current) && InStep(runtime, a.current) ==> InStep(Runtime(runtime, o.trace), o.state.current))
    && (o.deployed.Some? ==> o.deployed.value.command == command)
  }

  lemma AfterChildEffect(a: ActorState, target: DeploymentSpec, approved: bool, command: Command,
                         record: OperationRecord, runtime: Option<DeploymentVersion>, run: RolloutRun)
    requires approved <==> command.approved || command.kind == RollbackToVersion
    requires command.kind in {DeployVersion, RollbackToVersion, ScaleTo}
    requires AliasOk(a) && ChildOk(a, target, approved, command, runtime, run)
    ensures Effect(a, record, command, runtime, AfterChild(a, approved, command, record, run))
  {
  }

  // ----- Compaction -----

  function LastOf<T>(s: seq<T>): seq<T> {
    if |s| > HISTORY_LIMIT then s[|s| - HISTORY_LIMIT..] else s
  }

  function KeyMap(operations: seq<OperationRecord>): map<string, string> {
    if operations == [] then map[]
    else
      var last := operations[|operations| - 1];
      KeyMap(operations[..|operations| - 1])[last.idempotencyKey := last.operationID]
  }

  function Compact(a: ActorState): ActorState {
    a.(operations := LastOf(a.operations), versions := LastOf(a.versions),
        processedKeys := KeyMap(LastOf(a.operations)))
  }

  function Normalize(a: ActorState): ActorState {
    a.(policy := if a.policy == ZERO_POLICY then DefaultPolicy(a.identity.environment) else a.policy,
       continueAfter := if a.continueAfter <= 0 then 500 else a.continueAfter)
  }

  /** Continue-as-new: the state is compacted, written out and read back, so shared objects come
      apart, and the new generation normalizes it. */
  function NextGeneration(a: ActorState): ActorState {
    Normalize(Compact(a.(eventCount := 0)).(aliased := false))
  }

  /** The state EnsureDeploymentActor starts an actor with, as its first generation sees it. */
  function Start(identity: DeploymentIdentity, policy: Policy, continueAfter: int): ActorState {
    Normalize(ActorState(identity, policy, Idle, None, None, false, [], None, [], map[], [], false, false, None, 0,
        continueAfter))
  }

  // ----- The actor together with its past -----

  /** The actor, what the runtime runs, and the full history nothing truncates. */
  datatype Machine = Machine(
    actor: ActorState, runtime: Option<DeploymentVersion>, executed: seq<OperationRecord>,
    received: seq<Command>, taken: seq<Command>, history: seq<Deployed>)

  function Initial(identity: DeploymentIdentity, policy: Policy, continueAfter: int): Machine {
    Machine(Start(identity, policy, continueAfter), None, [], [], [], [])
  }

  /** The machine after its first pending command was skipped as a duplicate, or had this outcome.
      Processing a command leaves the queue behind it alone (ExecuteEffect). */
  function Absorb(m: Machine, o: Option<Outcome>): Machine
    requires m.actor.pending != []
  {
    var rest := m.actor.pending[1..];
    var m' := m.(taken := m.taken + [m.actor.pending[0]]);
    match o
    case None => m'.(actor := m.actor.(pending := rest, eventCount := m.actor.eventCount + 1))
    case Some(o) =>
      m'.(actor := o.state.(pending := rest, eventCount := o.state.eventCount + 1),
          runtime := Runtime(m.runtime, o.trace),
          executed := m.executed + [o.record],
          history := if o.deployed.Some? then m.history + [o.deployed.value] else m.history)
  }

  function Process(m: Machine, answers: Answers): Option<Outcome>
    requires m.actor.pending != []
  {
    var next := m.actor.pending[0];
    var a := m.actor.(pending := m.actor.pending[1..]);
    if Duplicate(a, next) then None else Some(Execute(a, next, answers))
  }

  /** One command taken off the queue and processed. */
  function TakeOne(m: Machine, answers: Answers): (r: Machine)
    requires m.actor.pending != []
    ensures r.actor.pending == m.actor.pending[1..]
  {
    Absorb(m, Process(m, answers))
  }

  predicate MustRestart(m: Machine, next: Command) {
    next.kind.ContinueAsNew? || m.actor.eventCount >= m.actor.continueAfter
  }

  /** The inner loop: until the queue is empty, or the generation ends. */
  function Drain(m: Machine, oracle: nat -> Answers): Machine
    decreases |m.actor.pending|
  {
    if m.actor.pending == [] then m
    else
      var m' := TakeOne(m, oracle(|m.taken|));
      if MustRestart(m', m.actor.pending[0]) then m'.(actor := NextGeneration(m'.actor))
      else
        Drain(m', oracle)
  }

  /** One signal received. */
  function Receive(m: Machine, command: Command, oracle: nat -> Answers): Machine {
    Drain(m.(received := m.received + [command], actor := m.actor.(pending := m.actor.pending + [command])), oracle)
  }

  /** A whole run, across any number of generations: the machine before and after each signal. */
  ghost predicate Trajectory(machines: seq<Machine>, commands: seq<Command>, oracle: nat -> Answers) {
    && |machines| == |commands| + 1
    && forall i | 0 <= i < |commands| :: Follows(machines[i], commands[i], oracle, machines[i + 1])
  }

  predicate Follows(m: Machine, command: Command, oracle: nat -> Answers, m': Machine) {
    m' == Receive(m, command, oracle)
  }
}
