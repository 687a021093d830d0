// What the actor remembers, as a function of the commands it has received: which keys still stop a
// repeated command, and when a generation ends.
module ActorMemory {
  import opened Wrappers
  import opened Domain
  import opened Rollout
  import opened Actor
  import opened ActorTheorems
  import opened ActorGuarantees

  // ----- One signal to an actor at rest -----

  /** The actor after the command, before a restart that may follow. */
  function Processed(m: Machine, command: Command, answers: Answers): ActorState {
    var a := if Duplicate(m.actor, command) then m.actor else Execute(m.actor, command, answers).state;
    a.(eventCount := a.eventCount + 1)
  }

  predicate Ends(a: ActorState, command: Command) {
    command.kind.ContinueAsNew? || a.eventCount >= a.continueAfter
  }

  function Signalled(m: Machine, command: Command): Machine {
    m.(received := m.received + [command], actor := m.actor.(pending := m.actor.pending + [command]))
  }

  lemma DuplicateTaken(m: Machine, command: Command, answers: Answers)
    requires m.actor.pending == [] && Duplicate(m.actor, command)
    ensures Signalled(m, command).actor.pending == [command]
    ensures var m' := TakeOne(Signalled(m, command), answers);
            m'.actor == Processed(m, command, answers) && m'.executed == m.executed && m'.history == m.history
  {
    var s := Signalled(m, command);
    assert s.actor.(pending := s.actor.pending[1..]) == m.actor;
    hide Execute, Runtime;
  }

  lemma CommandTaken(m: Machine, command: Command, answers: Answers)
    requires m.actor.pending == [] && !Duplicate(m.actor, command)
    requires Execute(m.actor, command, answers).state.pending == []
    ensures Signalled(m, command).actor.pending == [command]
    ensures var m', o := TakeOne(Signalled(m, command), answers), Execute(m.actor, command, answers);
            && m'.actor == Processed(m, command, answers)
            && m'.executed == m.executed + [o.record]
            && m'.history == if o.deployed.Some? then m.history + [o.deployed.value] else m.history
  {
    var s := Signalled(m, command);
    ProcessesCommand(m, command, answers);
    hide Execute, Runtime, Process, Duplicate;
    assert s.actor.pending[1..] == [];
  }

  lemma ProcessesCommand(m: Machine, command: Command, answers: Answers)
    requires m.actor.pending == [] && !Duplicate(m.actor, command)
    ensures Signalled(m, command).actor.pending == [command]
    ensures Process(Signalled(m, command), answers) == Some(Execute(m.actor, command, answers))
  {
    var s := Signalled(m, command);
    assert s.actor.(pending := s.actor.pending[1..]) == m.actor;
    hide Execute, Duplicate;
  }

  lemma DrainedOnce(s: Machine, command: Command, oracle: nat -> Answers)
    requires s.actor.pending == [command]
    ensures var m' := TakeOne(s, oracle(|s.taken|));
            Drain(s, oracle) == if MustRestart(m', command) then m'.(actor := NextGeneration(m'.actor)) else m'
  {
    hide TakeOne, NextGeneration;
  }

  /** What one signal does to an actor at rest. */
  ghost predicate Handled(m: Machine, m': Machine, command: Command, answers: Answers) {
    var a := Processed(m, command, answers);
    && m'.actor == (if Ends(a, command) then NextGeneration(a) else a)
    && (if Duplicate(m.actor, command) then m'.executed == m.executed && m'.history == m.history
        else var o := Execute(m.actor, command, answers);
          && Executed(m.actor, command, m.runtime, o)
          && m'.executed == m.executed + [o.record]
          && m'.history == if o.deployed.Some? then m.history + [o.deployed.value] else m.history)
  }

  lemma AtRest(m: Machine, policy: Policy)
    requires Reached(m, policy)
    ensures m.actor.pending == [] && AliasOk(m.actor) && KeysInv(m) && VersionsInv(m, policy)
  {
    hide KeysInv, MemoryInv, AnsweredInv, InStep;
  }

  lemma QueueEmptied(m: Machine, command: Command, o: Outcome)
    requires Executed(m.actor, command, m.runtime, o)
    ensures o.state.pending == m.actor.pending
  {
    hide VersionEffect, InStep, Runtime;
  }

  lemma OneSignal(m: Machine, policy: Policy, command: Command, oracle: nat -> Answers)
    requires Reached(m, policy)
    ensures Handled(m, Receive(m, command, oracle), command, oracle(|m.taken|))
  {
    hide *;
    AtRest(m, policy);
    SignalledQueue(m, command, oracle);
    var s, answers := Signalled(m, command), oracle(|m.taken|);
    var m' := TakeOne(s, answers);
    if Duplicate(m.actor, command) {
      DuplicateTaken(m, command, answers);
    } else {
      ExecuteEffect(m.actor, command, answers, m.runtime);
      QueueEmptied(m, command, Execute(m.actor, command, answers));
      CommandTaken(m, command, answers);
    }
    DrainedOnce(s, command, oracle);
    EndsOnRestart(m', command);
    HandledIs(m, if MustRestart(m', command) then m'.(actor := NextGeneration(m'.actor)) else m', command, answers);
  }

  lemma SignalledQueue(m: Machine, command: Command, oracle: nat -> Answers)
    ensures Receive(m, command, oracle) == Drain(Signalled(m, command), oracle)
    ensures Signalled(m, command).taken == m.taken && Signalled(m, command).actor.pending == m.actor.pending + [command]
  {
    hide Drain;
  }

  lemma EndsOnRestart(m: Machine, command: Command)
    ensures MustRestart(m, command) <==> Ends(m.actor, command)
  {
  }

  lemma HandledIs(m: Machine, m': Machine, command: Command, answers: Answers)
    requires var a := Processed(m, command, answers); m'.actor == if Ends(a, command) then NextGeneration(a) else a
    requires if Duplicate(m.actor, command) then m'.executed == m.executed && m'.history == m.history
             else var o := Execute(m.actor, command, answers);
               && Executed(m.actor, command, m.runtime, o)
               && m'.executed == m.executed + [o.record]
               && m'.history == if o.deployed.Some? then m.history + [o.deployed.value] else m.history
    ensures Handled(m, m', command, answers)
  {
    hide Processed, Ends, NextGeneration, Duplicate, Execute, Executed;
  }

  // ----- What is remembered -----

  /** normalizeState's default. */
  function Limit(continueAfter: int): int {
    if continueAfter <= 0 then 500 else continueAfter
  }

  predicate Restarts(count: nat, command: Command, limit: int) {
    command.kind.ContinueAsNew? || count + 1 >= limit
  }

  /** How many commands the current generation has taken. */
  function SinceRestart(commands: seq<Command>, limit: int): nat {
    if commands == [] then 0
    else
      var last, count := commands[|commands| - 1], SinceRestart(commands[..|commands| - 1], limit);
      if Restarts(count, last, limit) then 0 else count + 1
  }

  function LastFifty<T>(s: seq<T>): seq<T> {
    if |s| > 50 then s[|s| - 50..] else s
  }

  /** The keys that a command would be refused for: a key is added when it is not there, and a
      restart drops all but the last fifty. */
  function Window(commands: seq<Command>, limit: int): seq<string> {
    if commands == [] then []
    else
      var init, last := commands[..|commands| - 1], commands[|commands| - 1];
      var window := Window(init, limit);
      var grown := if Key(last) in window then window else window + [Key(last)];
      if Restarts(SinceRestart(init, limit), last, limit) then LastFifty(grown) else grown
  }

  function Keys(operations: seq<OperationRecord>): (keys: seq<string>)
    ensures |keys| == |operations| && forall i | 0 <= i < |keys| :: keys[i] == operations[i].idempotencyKey
  {
    seq(|operations|, i requires 0 <= i < |operations| => operations[i].idempotencyKey)
  }

  lemma HasKeyIn(operations: seq<OperationRecord>, key: string)
    ensures HasKey(operations, key) <==> key in Keys(operations)
  {
    if HasKey(operations, key) {
      var i :| 0 <= i < |operations| && operations[i].idempotencyKey == key;
      assert Keys(operations)[i] == key;
    }
  }

  lemma DuplicateIn(m: Machine, command: Command)
    requires KeysInv(m)
    ensures Duplicate(m.actor, command) <==> Key(command) in Keys(m.actor.operations)
  {
    KeyMapKeys(m.actor.operations, Key(command));
    HasKeyIn(m.actor.operations, Key(command));
    hide HasKey, KeyMap;
  }

  ghost predicate Remembers(a: ActorState, commands: seq<Command>, limit: int) {
    && a.continueAfter == limit && a.eventCount == SinceRestart(commands, limit)
    && Keys(a.operations) == Window(commands, limit)
  }

  lemma WindowOnce(commands: seq<Command>, command: Command, limit: int)
    ensures var count, window := SinceRestart(commands, limit), Window(commands, limit);
            var grown := if Key(command) in window then window else window + [Key(command)];
            && SinceRestart(commands + [command], limit) == (if Restarts(count, command, limit) then 0 else count + 1)
            && Window(commands + [command], limit) == if Restarts(count, command, limit) then LastFifty(grown)
                else grown
  {
    var all := commands + [command];
    assert all[..|all| - 1] == commands && all[|all| - 1] == command;
    hide LastFifty;
  }

  lemma NextGenerationKeys(a: ActorState)
    requires a.continueAfter > 0
    ensures var b := NextGeneration(a);
            b.continueAfter == a.continueAfter && b.eventCount == 0
                && Keys(b.operations) == LastFifty(Keys(a.operations))
  {
  }

  lemma RememberedOnce(m: Machine, m': Machine, commands: seq<Command>, command: Command, answers: Answers, limit: int)
    requires KeysInv(m) && Remembers(m.actor, commands, limit) && limit > 0
    requires Handled(m, m', command, answers)
    ensures Remembers(m'.actor, commands + [command], limit)
  {
    DuplicateIn(m, command);
    ProcessedKeys(m, command, answers);
    WindowOnce(commands, command, limit);
    var a := Processed(m, command, answers);
    hide Execute, Executed, Duplicate, KeysInv, Processed, NextGeneration, SinceRestart, Window, LastFifty;
    if Ends(a, command) {
      NextGenerationKeys(a);
    }
  }

  lemma ProcessedKeys(m: Machine, command: Command, answers: Answers)
    requires !Duplicate(m.actor, command) ==> Executed(m.actor, command, m.runtime, Execute(m.actor, command, answers))
    ensures var a := Processed(m, command, answers);
            && a.eventCount == m.actor.eventCount + 1 && a.continueAfter == m.actor.continueAfter
            && Keys(a.operations) == if Duplicate(m.actor, command) then Keys(m.actor.operations)
                else Keys(m.actor.operations) + [Key(command)]
  {
    hide Execute, Duplicate, VersionEffect, InStep, Runtime;
  }

  lemma InitialRemembers(identity: DeploymentIdentity, policy: Policy, continueAfter: int)
    ensures Remembers(Initial(identity, policy, continueAfter).actor, [], Limit(continueAfter))
  {
    assert Keys([]) == [];
  }

  lemma LifeShape(identity: DeploymentIdentity, policy: Policy, continueAfter: int,
                  machines: seq<Machine>, commands: seq<Command>, oracle: nat -> Answers)
    requires Life(identity, policy, continueAfter, machines, commands, oracle)
    ensures |machines| == |commands| + 1 && machines[0] == Initial(identity, policy, continueAfter)
  {
    hide Follows;
  }

  lemma LimitPositive(continueAfter: int)
    ensures Limit(continueAfter) > 0
  {
  }

  /** One signal of a run. */
  lemma SignalOfLife(identity: DeploymentIdentity, policy: Policy, continueAfter: int,
                     machines: seq<Machine>, commands: seq<Command>, oracle: nat -> Answers, i: nat)
    requires Life(identity, policy, continueAfter, machines, commands, oracle) && i < |commands|
    ensures i + 1 < |machines|
    ensures Handled(machines[i], machines[i + 1], commands[i], oracle(|machines[i].taken|))
    ensures Reached(machines[i], EffectivePolicy(identity, policy)) && KeysInv(machines[i])
    ensures machines[i].actor.pending == [] && AliasOk(machines[i].actor)
  {
    LifeReached(identity, policy, continueAfter, machines, commands, oracle, i);
    assert Follows(machines[i], commands[i], oracle, machines[i + 1]);
    hide Reached, Receive, Handled;
    OneSignal(machines[i], EffectivePolicy(identity, policy), commands[i], oracle);
    AtRest(machines[i], EffectivePolicy(identity, policy));
  }

  /** Over any run, with any answers from outside, the remembered keys and the length of the current
      generation are these functions of the commands received. */
  lemma {:induction false} MemoryIsWindow(identity: DeploymentIdentity, policy: Policy, continueAfter: int,
                                          machines: seq<Machine>, commands: seq<Command>, oracle: nat -> Answers,
                                          i: nat)
    requires Life(identity, policy, continueAfter, machines, commands, oracle) && i < |machines|
    ensures Remembers(machines[i].actor, commands[..i], Limit(continueAfter))
  {
    hide *;
    LifeShape(identity, policy, continueAfter, machines, commands, oracle);
    if i == 0 {
      InitialRemembers(identity, policy, continueAfter);
    } else {
      LimitPositive(continueAfter);
      MemoryIsWindow(identity, policy, continueAfter, machines, commands, oracle, i - 1);
      SignalOfLife(identity, policy, continueAfter, machines, commands, oracle, i - 1);
      RememberedOnce(machines[i - 1], machines[i], commands[..i - 1], commands[i - 1], oracle(|machines[i - 1].taken|),
          Limit(continueAfter));
      assert commands[..i] == commands[..i - 1] + [commands[i - 1]];
    }
  }

  /** A received command is executed exactly when its key is not among the remembered ones. */
  lemma ExecutedExactly(identity: DeploymentIdentity, policy: Policy, continueAfter: int,
                        machines: seq<Machine>, commands: seq<Command>, oracle: nat -> Answers, i: nat)
    requires Life(identity, policy, continueAfter, machines, commands, oracle) && i < |commands|
    ensures var before, after := machines[i].executed, machines[i + 1].executed;
            var remembered := Window(commands[..i], Limit(continueAfter));
            && (Key(commands[i]) in remembered ==> after == before)
            && (Key(commands[i]) !in remembered ==>
                  |after| == |before| + 1 && before <= after && after[|before|].idempotencyKey == Key(commands[i]))
  {
    hide Life, Reached, Window, KeysInv, Handled, Execute;
    LifeShape(identity, policy, continueAfter, machines, commands, oracle);
    MemoryIsWindow(identity, policy, continueAfter, machines, commands, oracle, i);
    SignalOfLife(identity, policy, continueAfter, machines, commands, oracle, i);
    DuplicateIn(machines[i], commands[i]);
    HandledExecutes(machines[i], machines[i + 1], commands[i], oracle(|machines[i].taken|));
  }

  lemma HandledExecutes(m: Machine, m': Machine, command: Command, answers: Answers)
    requires Handled(m, m', command, answers)
    ensures if Duplicate(m.actor, command) then m'.executed == m.executed
            else |m'.executed| == |m.executed| + 1 && m.executed <= m'.executed
                 && m'.executed[|m.executed|].idempotencyKey == Key(command)
  {
    hide Duplicate, Execute, Processed, NextGeneration, VersionEffect, InStep, Runtime;
  }

  /** Within a generation: a key stops a command exactly while it is among the last operations, as
      many as the actor still has records of. */
  lemma RefusedExactlyWithin(identity: DeploymentIdentity, policy: Policy, continueAfter: int,
                             machines: seq<Machine>, commands: seq<Command>, oracle: nat -> Answers, i: nat,
                             command: Command)
    requires Life(identity, policy, continueAfter, machines, commands, oracle) && i < |machines|
    ensures var m, n := machines[i], |Window(commands[..i], Limit(continueAfter))|;
            n <= |m.executed| && (Duplicate(m.actor, command) <==> HasKey(m.executed[|m.executed| - n..], Key(command)))
  {
    hide Life, Reached, Window;
    LifeShape(identity, policy, continueAfter, machines, commands, oracle);
    MemoryIsWindow(identity, policy, continueAfter, machines, commands, oracle, i);
    LifeReached(identity, policy, continueAfter, machines, commands, oracle, i);
    AtRest(machines[i], EffectivePolicy(identity, policy));
    DuplicateInSuffix(machines[i], command);
  }

  lemma DuplicateInSuffix(m: Machine, command: Command)
    requires KeysInv(m)
    ensures var n := |m.actor.operations|;
            n <= |m.executed| && (Duplicate(m.actor, command) <==> HasKey(m.executed[|m.executed| - n..], Key(command)))
  {
    KeyMapKeys(m.actor.operations, Key(command));
    hide HasKey, DistinctKeys, ExactlyOnceWindow, KeyMap;
  }

  /** Right after a restart: exactly the keys of the last fifty operations stop a command; the key
      of any older one runs again. */
  lemma EvictedKeyRunsAgain(identity: DeploymentIdentity, policy: Policy, continueAfter: int,
                            machines: seq<Machine>, commands: seq<Command>, oracle: nat -> Answers, i: nat,
                            command: Command)
    requires Life(identity, policy, continueAfter, machines, commands, oracle) && i < |machines|
    requires SinceRestart(commands[..i], Limit(continueAfter)) == 0
    ensures Duplicate(machines[i].actor, command) <==> HasKey(LastFifty(machines[i].executed), Key(command))
  {
    hide Life, Reached, Window, SinceRestart, HasKey, KeysInv, VersionsInv;
    LifeShape(identity, policy, continueAfter, machines, commands, oracle);
    MemoryIsWindow(identity, policy, continueAfter, machines, commands, oracle, i);
    LifeReached(identity, policy, continueAfter, machines, commands, oracle, i);
    AtRest(machines[i], EffectivePolicy(identity, policy));
    RestartedWindow(commands[..i], Limit(continueAfter));
    LastOfBoth(machines[i]);
    DuplicateInSuffix(machines[i], command);
  }

  lemma LastOfBoth(m: Machine)
    requires KeysInv(m) && |m.actor.operations| <= HISTORY_LIMIT
    ensures var n := |m.actor.operations|;
            n <= |m.executed| && LastFifty(m.executed) == m.executed[|m.executed| - n..]
  {
    hide DistinctKeys, ExactlyOnceWindow, KeyMap;
  }

  lemma RestartedWindow(commands: seq<Command>, limit: int)
    requires SinceRestart(commands, limit) == 0
    ensures |Window(commands, limit)| <= HISTORY_LIMIT
  {
  }

  // ----- A key that runs twice -----

  /** The run that these commands lead to. */
  function RunFrom(m: Machine, commands: seq<Command>, oracle: nat -> Answers): (machines: seq<Machine>)
    ensures |machines| == |commands| + 1
  {
    if commands == [] then [m]
    else
      var init := RunFrom(m, commands[..|commands| - 1], oracle);
      init + [Receive(init[|init| - 1], commands[|commands| - 1], oracle)]
  }

  lemma RunFromOnce(m: Machine, commands: seq<Command>, oracle: nat -> Answers)
    ensures commands == [] ==> RunFrom(m, commands, oracle) == [m]
    ensures commands != [] ==>
      var init := commands[..|commands| - 1];
      var before := RunFrom(m, init, oracle);
      RunFrom(m, commands, oracle) == before + [Receive(before[|init|], commands[|commands| - 1], oracle)]
  {
    hide Receive;
  }

  lemma {:induction false} RunFromTrajectory(m: Machine, commands: seq<Command>, oracle: nat -> Answers)
    ensures Trajectory(RunFrom(m, commands, oracle), commands, oracle) && RunFrom(m, commands, oracle)[0] == m
  {
    hide Receive, RunFrom;
    RunFromOnce(m, commands, oracle);
    if commands != [] {
      var init := commands[..|commands| - 1];
      RunFromTrajectory(m, init, oracle);
      var before, machines := RunFrom(m, init, oracle), RunFrom(m, commands, oracle);
      forall i | 0 <= i < |commands| ensures Follows(machines[i], commands[i], oracle, machines[i + 1]) {
        if i < |init| {
          assert Follows(before[i], init[i], oracle, before[i + 1]);
          assert machines[i] == before[i] && machines[i + 1] == before[i + 1] && commands[i] == init[i];
        }
      }
    }
  }

  function Letters(n: nat): string {
    seq(n, i => 'a')
  }

  function Freeze(n: nat, kind: CommandType): Command {
    Command(Letters(n + 1), "", kind, "operator", None, 0, 0, false, false)
  }

  function ScriptAt(i: nat): Command {
    if i == 51 then Freeze(0, FreezeAutoscaler) else if i == 50 then Freeze(50, ContinueAsNew)
        else Freeze(i, FreezeAutoscaler)
  }

  /** Fifty commands of different keys, a restart, and the first command once more. */
  function Script(): (commands: seq<Command>)
    ensures |commands| == 52 && forall i | 0 <= i < 52 :: commands[i] == ScriptAt(i)
  {
    seq(52, i requires 0 <= i < 52 => ScriptAt(i))
  }

  lemma ScriptKeys(i: nat)
    requires i < 51
    ensures Key(Script()[i]) == Letters(i + 1) && (Script()[i].kind.ContinueAsNew? <==> i == 50)
    ensures Key(Script()[51]) == Letters(1)
  {
    assert Script()[i] == ScriptAt(i) && Script()[51] == ScriptAt(51);
  }

  function FirstKeys(n: nat): seq<string> {
    seq(n, i requires 0 <= i < n => Letters(i + 1))
  }

  lemma KeyIsNew(n: nat)
    ensures Letters(n + 1) !in FirstKeys(n)
    ensures FirstKeys(n) + [Letters(n + 1)] == FirstKeys(n + 1)
  {
    forall i | 0 <= i < n ensures FirstKeys(n)[i] != Letters(n + 1) {
      assert |FirstKeys(n)[i]| == i + 1 && |Letters(n + 1)| == n + 1;
    }
  }

  lemma {:induction false} ScriptWindow(n: nat)
    requires n <= 50
    ensures Window(Script()[..n], 500) == FirstKeys(n) && SinceRestart(Script()[..n], 500) == n
  {
    if n > 0 {
      hide *;
      ScriptWindow(n - 1);
      assert Script()[..n] == Script()[..n - 1] + [Script()[n - 1]];
      WindowOnce(Script()[..n - 1], Script()[n - 1], 500);
      ScriptKeys(n - 1);
      KeyIsNew(n - 1);
      NoRestartYet(n - 1, Script()[n - 1]);
    }
  }

  lemma NoRestartYet(count: nat, command: Command)
    requires !command.kind.ContinueAsNew? && count < 50
    ensures !Restarts(count, command, 500)
  {
  }

  lemma ScriptForgets()
    ensures Window(Script()[..51], 500) == LastFifty(FirstKeys(51))
  {
    ScriptWindow(50);
    assert Script()[..51] == Script()[..50] + [Script()[50]];
    WindowOnce(Script()[..50], Script()[50], 500);
    ScriptKeys(50);
    KeyIsNew(50);
    hide Script, Window, SinceRestart, FirstKeys, Letters;
  }

  lemma FirstForgotten()
    ensures Letters(1) !in LastFifty(FirstKeys(51))
  {
    var kept := LastFifty(FirstKeys(51));
    forall i | 0 <= i < |kept| ensures kept[i] != Letters(1) {
      assert kept[i] == FirstKeys(51)[i + 1] == Letters(i + 2);
      assert |Letters(i + 2)| == i + 2 && |Letters(1)| == 1;
    }
  }

  /** A run with the default limits, whatever the outside world answers, in which the same key is
      executed by the first and by the last of 52 commands. */
  lemma KeyRunsTwice(identity: DeploymentIdentity, policy: Policy, oracle: nat -> Answers)
      returns (machines: seq<Machine>)
    ensures Life(identity, policy, 0, machines, Script(), oracle)
    ensures var executed := machines[52].executed;
            exists i, j :: 0 <= i < j < |executed| && executed[i].idempotencyKey == executed[j].idempotencyKey
  {
    machines := RunFrom(Initial(identity, policy, 0), Script(), oracle);
    RunFromTrajectory(Initial(identity, policy, 0), Script(), oracle);
    assert Life(identity, policy, 0, machines, Script(), oracle);
    hide *;
    LifeShape(identity, policy, 0, machines, Script(), oracle);
    ScriptForgets();
    FirstForgotten();
    ScriptKeys(0);
    ScriptWindow(0);
    DefaultLimit();
    ExecutedExactly(identity, policy, 0, machines, Script(), oracle, 0);
    ExecutedExactly(identity, policy, 0, machines, Script(), oracle, 51);
    OneExecutedSince(identity, policy, machines, Script(), oracle);
    FirstAgain(machines[1].executed, machines[51].executed, machines[52].executed, Letters(1));
  }

  lemma FirstAgain(a: seq<OperationRecord>, b: seq<OperationRecord>, c: seq<OperationRecord>, key: string)
    requires |a| == 1 && a[0].idempotencyKey == key && a <= b && b <= c && |c| == |b| + 1
        && c[|b|].idempotencyKey == key
    ensures exists i, j :: 0 <= i < j < |c| && c[i].idempotencyKey == c[j].idempotencyKey
  {
    assert c[0].idempotencyKey == c[|b|].idempotencyKey;
  }

  lemma DefaultLimit()
    ensures Limit(0) == 500 && FirstKeys(0) == []
  {
  }

  lemma OneExecutedSince(identity: DeploymentIdentity, policy: Policy, machines: seq<Machine>, commands: seq<Command>,
                         oracle: nat -> Answers)
    requires Life(identity, policy, 0, machines, commands, oracle) && |commands| == 52
    ensures |machines| == 53 && machines[0].executed == [] && machines[1].executed <= machines[51].executed
  {
    hide Reached, Follows;
    InitialReached(identity, policy, 0);
    RunReached(machines, commands, oracle, EffectivePolicy(identity, policy), 0, 1);
    RunReached(machines, commands, oracle, EffectivePolicy(identity, policy), 1, 51);
  }
}
