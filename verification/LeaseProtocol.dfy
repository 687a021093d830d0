// The lease store as any number of workers run it at once. Each call of `acquire` or `release`
// is a small program that talks to the API server one request at a time; steps of different
// calls interleave freely, every call reads its own clock, and any request may fail, including
// an update that fails only after it took effect. The log is the history of the committed
// updates; it is what the calls are serialized by.
module LeaseProtocol {
  import opened LeaseSpec
  import Text
  import Domain

  /** retry.DefaultRetry gives up after this many conflicts. */
  const MAX_ATTEMPTS: nat := 5

  datatype ConfigMap = ConfigMap(version: nat, data: Pool)

  datatype Change = Admitted(lease: Lease, now: int) | Removed(id: string)

  datatype Commit = Commit(call: nat, name: string, change: Change)

  datatype Request = Acquire(name: string, lease: Lease) | Release(id: string)

  /** Where a call is. `at` is the length of the log when the snapshot was taken. */
  datatype Phase =
    | Getting
    | Creating
    | Regetting
    | Loaded(cm: ConfigMap, at: nat)
    | Writing(cm: ConfigMap, at: nat, now: int, data: Pool)
    | Listing
    | Deleting(name: string, cm: ConfigMap, at: nat)
    | Finished(outcome: Outcome, end: nat)

  /** `point` is the log index of the call's own commit. */
  datatype Outcome =
    | Acquired(point: nat)
    | Rejected(at: nat, now: int, reserved: int)
    | Released(point: nat)
    | NothingToRelease(at: nat)
    | GaveUp
    | Failed

  datatype Call = Call(request: Request, started: nat, attempts: nat, phase: Phase)

  datatype State = State(cms: map<string, ConfigMap>, nextVersion: nat, calls: map<nat, Call>, log: seq<Commit>)

  datatype Action =
    | StartAcquire(id: string, nodePool: string, resources: Domain.ResourceShape, owner: string, ttl: int, clock: int)
    | StartRelease(id: string)
    | Proceed(now: int, target: string)
    | Break(applied: bool)

  const INIT := State(map[], 0, map[], [])

  function PoolOf(s: State, name: string): Pool {
    if name in s.cms then s.cms[name].data else map[]
  }

  // ----- Steps -----

  ghost predicate Held(s: State, id: string) {
    exists name :: id in PoolOf(s, name)
  }

  ghost predicate Enabled(s: State, c: nat, a: Action) {
    match a
    case StartAcquire(_, _, _, _, _, _) => c !in s.calls
    case StartRelease(_) => c !in s.calls
    case Proceed(_, target) =>
      && c in s.calls && !s.calls[c].phase.Finished?
      && RequestOk(s.calls[c])
      // The first listed pool that holds the lease; the order of the list is not specified.
      && (s.calls[c].phase.Listing? && Held(s, s.calls[c].request.id) ==> s.calls[c].request.id in PoolOf(s, target))
    case Break(applied) =>
      && c in s.calls && !s.calls[c].phase.Finished?
      && (applied ==> CanCommit(s, c))
  }

  /** Each phase belongs to one kind of request. */
  predicate RequestOk(call: Call) {
    match call.phase
    case Finished(_, _) => true
    case Listing => call.request.Release?
    case Deleting(_, _, _) => call.request.Release?
    case _ => call.request.Acquire?
  }

  /** The update of a call in its last phase would succeed: nobody has written since its load. */
  predicate CanCommit(s: State, c: nat)
    requires c in s.calls
  {
    RequestOk(s.calls[c]) &&
    match s.calls[c].phase
    case Writing(cm, _, _, _) => s.calls[c].request.name in s.cms
        && s.cms[s.calls[c].request.name].version == cm.version
    case Deleting(name, cm, _) => name in s.cms && s.cms[name].version == cm.version
    case _ => false
  }

  function Move(s: State, c: nat, phase: Phase): State
    requires c in s.calls
  {
    s.(calls := s.calls[c := s.calls[c].(phase := phase)])
  }

  function Finish(s: State, c: nat, outcome: Outcome): State
    requires c in s.calls
  {
    Move(s, c, Finished(outcome, |s.log|))
  }

  /** RetryOnConflict: start over with a fresh load, or give up. */
  function Conflict(s: State, c: nat): State
    requires c in s.calls
  {
    var call := s.calls[c];
    if call.attempts <= 1 then Finish(s, c, GaveUp)
    else s.(calls := s.calls[c := call.(attempts := call.attempts - 1,
                                        phase := if call.request.Acquire? then Getting else Listing)])
  }

  function Store(s: State, name: string, data: Pool, log: seq<Commit>): State {
    s.(cms := s.cms[name := ConfigMap(s.nextVersion, data)], nextVersion := s.nextVersion + 1, log := log)
  }

  /** The compare-and-swap of a call in its last phase. */
  function Committed(s: State, c: nat): State
    requires c in s.calls && CanCommit(s, c)
  {
    var call := s.calls[c];
    match call.phase
    case Writing(_, _, now, data) =>
      Store(s, call.request.name, data, s.log + [Commit(c, call.request.name, Admitted(call.request.lease, now))])
    case Deleting(name, cm, _) =>
      Store(s, name, cm.data - {call.request.id}, s.log + [Commit(c, name, Removed(call.request.id))])
  }

  ghost function Next(s: State, c: nat, a: Action, budget: int): State
    requires Enabled(s, c, a)
  {
    match a
    case StartAcquire(id, nodePool, resources, owner, ttl, clock) =>
      var pool := Text.StringOr(nodePool, "default");
      var lease := RequestedLease(id, pool, resources, owner, ttl, clock);
      s.(calls := s.calls[c := Call(Acquire(ConfigMapName(pool), lease), |s.log|, MAX_ATTEMPTS, Getting)])
    case StartRelease(id) =>
      s.(calls := s.calls[c := Call(Release(id), |s.log|, MAX_ATTEMPTS, Listing)])
    case Break(applied) =>
      Finish(if applied then Committed(s, c) else s, c, Failed)
    case Proceed(now, target) =>
      var call := s.calls[c];
      match call.phase
      case Getting =>
        if call.request.name in s.cms then Move(s, c, Loaded(s.cms[call.request.name], |s.log|))
        else Move(s, c, Creating)
      case Creating =>
        if call.request.name in s.cms then Move(s, c, Regetting)
        else Move(Store(s, call.request.name, map[], s.log), c, Loaded(ConfigMap(s.nextVersion, map[]), |s.log|))
      case Regetting =>
        if call.request.name in s.cms then Move(s, c, Loaded(s.cms[call.request.name], |s.log|))
        else Finish(s, c, Failed)
      case Loaded(cm, at) =>
        (match Admit(cm.data, call.request.lease, now, budget)
         case Exhausted(reserved) => Finish(s, c, Rejected(at, now, reserved))
         case Stored(data) => Move(s, c, Writing(cm, at, now, data)))
      case Writing(_, _, _, _) =>
        if CanCommit(s, c) then Finish(Committed(s, c), c, Acquired(|s.log|)) else Conflict(s, c)
      case Listing =>
        if call.request.id in PoolOf(s, target) then Move(s, c, Deleting(target, s.cms[target], |s.log|))
        else Finish(s, c, NothingToRelease(|s.log|))
      case Deleting(_, _, _) =>
        if CanCommit(s, c) then Finish(Committed(s, c), c, Released(|s.log|)) else Conflict(s, c)
  }

  ghost predicate Step(s: State, s': State, budget: int) {
    exists c: nat, a: Action :: Enabled(s, c, a) && s' == Next(s, c, a, budget)
  }

  /** A finite run of any number of calls under any interleaving. */
  ghost predicate Run(states: seq<State>, budget: int) {
    && states != [] && states[0] == INIT
    && forall i | 0 < i < |states| :: StepAt(states, i, budget)
  }

  ghost predicate StepAt(states: seq<State>, i: nat, budget: int)
    requires 0 < i < |states|
  {
    Step(states[i - 1], states[i], budget)
  }

  // ----- What the log says -----

  ghost function Apply(pool: Pool, commit: Commit, name: string): Pool {
    if commit.name != name then pool
    else match commit.change
      case Admitted(lease, now) => Unexpired(pool, now)[lease.id := lease]
      case Removed(id) => pool - {id}
  }

  /** The pool that results from running the log's operations one at a time, in order. */
  ghost function Replay(log: seq<Commit>, name: string): Pool {
    if log == [] then map[]
    else Apply(Replay(log[..|log| - 1], name), log[|log| - 1], name)
  }

  /** The i-th operation succeeds when it runs alone after the ones before it. */
  ghost predicate SerialStep(log: seq<Commit>, i: nat, budget: int)
    requires i < |log|
  {
    var pool := Replay(log[..i], log[i].name);
    match log[i].change
    case Admitted(lease, now) => Admit(pool, lease, now, budget) == Stored(Replay(log[..i + 1], log[i].name))
    case Removed(id) => id in pool
  }

  ghost predicate Serial(log: seq<Commit>, budget: int) {
    forall i | 0 <= i < |log| :: SerialStep(log, i, budget)
  }

  // ----- The invariant -----

  ghost predicate ServerInv(s: State, budget: int) {
    && (forall name | name in s.cms :: s.cms[name].version < s.nextVersion)
    && (forall name :: PoolOf(s, name) == Replay(s.log, name))
    && Serial(s.log, budget)
  }

  /** A snapshot shows the pool as it was, and a version that is still current shows it as it is. */
  ghost predicate SnapshotInv(s: State, call: Call, name: string, cm: ConfigMap, at: nat) {
    && name in s.cms && cm.version < s.nextVersion
    && (cm.version == s.cms[name].version ==> cm.data == s.cms[name].data)
    && call.started <= at <= |s.log|
    && cm.data == Replay(s.log[..at], name)
  }

  ghost predicate OutcomeInv(s: State, c: nat, call: Call, outcome: Outcome, end: nat, budget: int) {
    && end <= |s.log|
    && match outcome
       case Acquired(point) =>
         && call.request.Acquire? && call.started <= point < end
         && s.log[point].call == c && s.log[point].name == call.request.name
         && s.log[point].change.Admitted? && s.log[point].change.lease == call.request.lease
       case Rejected(at, now, reserved) =>
         && call.request.Acquire? && call.started <= at <= end
         && Admit(Replay(s.log[..at], call.request.name), call.request.lease, now, budget) == Exhausted(reserved)
       case Released(point) =>
         && call.request.Release? && call.started <= point < end
         && s.log[point].call == c && s.log[point].change == Removed(call.request.id)
       case NothingToRelease(at) =>
         && call.request.Release? && call.started <= at <= end
         && forall name :: call.request.id !in Replay(s.log[..at], name)
       case GaveUp => forall i | 0 <= i < |s.log| :: s.log[i].call != c
       case Failed => true
  }

  ghost predicate CallInv(s: State, c: nat, budget: int)
    requires c in s.calls
  {
    var call := s.calls[c];
    && RequestOk(call)
    && call.started <= |s.log|
    && (call.phase.Finished? || forall i | 0 <= i < |s.log| :: s.log[i].call != c)
    && match call.phase
       case Loaded(cm, at) => SnapshotInv(s, call, call.request.name, cm, at)
       case Writing(cm, at, now, data) =>
         && SnapshotInv(s, call, call.request.name, cm, at)
         && Admit(cm.data, call.request.lease, now, budget) == Stored(data)
       case Deleting(name, cm, at) =>
         SnapshotInv(s, call, name, cm, at) && call.request.id in cm.data
       case Finished(outcome, end) => OutcomeInv(s, c, call, outcome, end, budget)
       case _ => true
  }

  ghost predicate Inv(s: State, budget: int) {
    && ServerInv(s, budget)
    && (forall c | c in s.calls :: CallInv(s, c, budget))
    && LogInv(s)
  }

  /** A call commits at most once, and what it was asked to. */
  ghost predicate LogInv(s: State) {
    && (forall i, j | 0 <= i < j < |s.log| :: s.log[i].call != s.log[j].call)
    && (forall i | 0 <= i < |s.log| :: MadeBy(s, s.log[i]))
  }

  /** A commit does what its call was asked to do. */
  predicate MadeBy(s: State, commit: Commit) {
    && commit.call in s.calls
    && match commit.change
       case Admitted(lease, _) => s.calls[commit.call].request == Acquire(commit.name, lease)
       case Removed(id) => s.calls[commit.call].request == Release(id)
  }

  /** Appending to the log leaves every earlier prefix as it was. */
  lemma PrefixKept(log: seq<Commit>, commit: Commit)
    ensures forall at | 0 <= at <= |log| :: (log + [commit])[..at] == log[..at]
    ensures forall name :: Replay(log + [commit], name) == Apply(Replay(log, name), commit, name)
  {
    forall at | 0 <= at <= |log| ensures (log + [commit])[..at] == log[..at] { }
    assert (log + [commit])[..|log|] == log;
  }

  lemma SerialExtend(log: seq<Commit>, commit: Commit, budget: int)
    requires Serial(log, budget)
    requires match commit.change
             case Admitted(lease, now) =>
               Admit(Replay(log, commit.name), lease, now, budget)
               == Stored(Apply(Replay(log, commit.name), commit, commit.name))
             case Removed(id) => id in Replay(log, commit.name)
    ensures Serial(log + [commit], budget)
  {
    var log' := log + [commit];
    PrefixKept(log, commit);
    forall i | 0 <= i < |log'| ensures SerialStep(log', i, budget) {
      if i < |log| {
        assert SerialStep(log, i, budget);
        assert log'[..i] == log[..i] && log'[..i + 1] == log[..i + 1];
      } else {
        assert log'[..i] == log && log'[..i + 1] == log';
      }
    }
  }

  /** A call that takes no part in a change of the server keeps its invariant. */
  lemma BystanderKeepsInv(s: State, s': State, c: nat, name: string, data: Pool, budget: int)
    requires c in s.calls && CallInv(s, c, budget) && ServerInv(s, budget)
    requires c in s'.calls && s'.calls[c] == s.calls[c]
    requires s'.cms == s.cms[name := ConfigMap(s.nextVersion, data)] && s'.nextVersion == s.nextVersion + 1
    requires s'.log == s.log || (exists commit :: s'.log == s.log + [commit] && commit.call != c)
    ensures CallInv(s', c, budget)
  {
    if s'.log != s.log {
      var commit :| s'.log == s.log + [commit] && commit.call != c;
      PrefixKept(s.log, commit);
    }
  }

  /** What a successful compare-and-swap does: nobody has written since the load, so the snapshot
      is the pool as it is, and the write is the serial operation's effect on it. */
  lemma CommitIsSerial(s: State, c: nat, budget: int)
    requires ServerInv(s, budget) && c in s.calls && CallInv(s, c, budget) && CanCommit(s, c)
    ensures var m := Committed(s, c);
            && |m.log| == |s.log| + 1 && m.log[..|s.log|] == s.log && m.log == s.log + [m.log[|s.log|]]
            && m.log[|s.log|].call == c && MadeBy(m, m.log[|s.log|])
            && m.cms == s.cms[m.log[|s.log|].name := ConfigMap(s.nextVersion, Replay(m.log, m.log[|s.log|].name))]
            && Serial(m.log, budget)
  {
    var m := Committed(s, c);
    var commit := m.log[|s.log|];
    PrefixKept(s.log, commit);
    assert s.cms[commit.name].data == PoolOf(s, commit.name) == Replay(s.log, commit.name);
    SerialExtend(s.log, commit, budget);
  }

  lemma CommitKeepsServer(s: State, c: nat, budget: int)
    requires ServerInv(s, budget) && c in s.calls && CallInv(s, c, budget) && CanCommit(s, c)
    ensures ServerInv(Committed(s, c), budget)
  {
    CommitIsSerial(s, c, budget);
    var m := Committed(s, c);
    var commit := m.log[|s.log|];
    PrefixKept(s.log, commit);
    forall name ensures PoolOf(m, name) == Replay(m.log, name) {
      assert PoolOf(s, name) == Replay(s.log, name);
    }
  }

  predicate CommitOutcome(s: State, c: nat, outcome: Outcome)
    requires c in s.calls
  {
    outcome == Failed || outcome == (if s.calls[c].phase.Writing? then Acquired(|s.log|) else Released(|s.log|))
  }

  lemma CommitKeepsOthers(s: State, c: nat, outcome: Outcome, d: nat, budget: int)
    requires ServerInv(s, budget) && c in s.calls && CallInv(s, c, budget) && CanCommit(s, c)
    requires d in s.calls && d != c && CallInv(s, d, budget)
    ensures CallInv(Finish(Committed(s, c), c, outcome), d, budget)
  {
    CommitIsSerial(s, c, budget);
    var s' := Finish(Committed(s, c), c, outcome);
    var commit := s'.log[|s.log|];
    var data := s'.cms[commit.name].data;
    hide ServerInv, CallInv;
    BystanderKeepsInv(s, s', d, commit.name, data, budget);
  }

  lemma CommitKeepsOwn(s: State, c: nat, outcome: Outcome, budget: int)
    requires ServerInv(s, budget) && c in s.calls && CallInv(s, c, budget) && CanCommit(s, c)
    requires CommitOutcome(s, c, outcome)
    ensures CallInv(Finish(Committed(s, c), c, outcome), c, budget)
  {
    CommitIsSerial(s, c, budget);
    hide ServerInv, Replay, Serial, Admit;
  }

  lemma CommitKeepsLog(s: State, c: nat, outcome: Outcome, budget: int)
    requires ServerInv(s, budget) && c in s.calls && CallInv(s, c, budget) && CanCommit(s, c)
    requires !s.calls[c].phase.Finished? && LogInv(s)
    ensures LogInv(Finish(Committed(s, c), c, outcome))
  {
    CommitIsSerial(s, c, budget);
    var m := Committed(s, c);
    var commit, s' := m.log[|s.log|], Finish(m, c, outcome);
    assert forall i | 0 <= i < |s.log| :: s.log[i].call != c;
    assert s'.log == s.log + [commit] && s'.calls.Keys == s.calls.Keys;
    SameRequests(s, c, outcome);
    hide ServerInv, CallInv, Replay, Serial, Admit, Committed, Finish, CanCommit, MadeBy;
    forall i | 0 <= i < |s'.log| ensures MadeBy(s', s'.log[i]) {
      if i < |s.log| {
        assert s'.log[i] == s.log[i] && MadeBy(s, s.log[i]);
        MadeByKept(s, s', s.log[i]);
      } else {
        MadeByKept(m, s', commit);
      }
    }
  }

  lemma SameRequests(s: State, c: nat, outcome: Outcome)
    requires c in s.calls && CanCommit(s, c)
    ensures var m, s' := Committed(s, c), Finish(Committed(s, c), c, outcome);
            && (forall d | d in s.calls :: d in s'.calls && s'.calls[d].request == s.calls[d].request)
            && (forall d | d in m.calls :: d in s'.calls && s'.calls[d].request == m.calls[d].request)
  {
  }

  lemma MadeByKept(s: State, s': State, commit: Commit)
    requires MadeBy(s, commit)
    requires forall d | d in s.calls :: d in s'.calls && s'.calls[d].request == s.calls[d].request
    ensures MadeBy(s', commit)
  {
  }

  lemma CommitKeepsInv(s: State, c: nat, outcome: Outcome, budget: int)
    requires Inv(s, budget) && c in s.calls && CanCommit(s, c) && CommitOutcome(s, c, outcome)
    ensures Inv(Finish(Committed(s, c), c, outcome), budget)
  {
    assert CallInv(s, c, budget);
    var m := Committed(s, c);
    var s' := Finish(m, c, outcome);
    CommitKeepsServer(s, c, budget);
    FinishKeepsServer(m, c, outcome, budget);
    CommitKeepsLog(s, c, outcome, budget);
    hide ServerInv, LogInv, CallInv;
    forall d | d in s'.calls ensures CallInv(s', d, budget) {
      if d == c { CommitKeepsOwn(s, c, outcome, budget); } else { CommitKeepsOthers(s, c, outcome, d, budget); }
    }
  }

  lemma FinishKeepsServer(s: State, c: nat, outcome: Outcome, budget: int)
    requires ServerInv(s, budget) && c in s.calls
    ensures ServerInv(Finish(s, c, outcome), budget)
  {
    forall name ensures PoolOf(Finish(s, c, outcome), name) == Replay(s.log, name) {
      assert PoolOf(s, name) == Replay(s.log, name);
    }
  }

  lemma CreateKeepsInv(s: State, c: nat, budget: int)
    requires Inv(s, budget) && c in s.calls && s.calls[c].phase.Creating? && RequestOk(s.calls[c])
    requires s.calls[c].request.name !in s.cms
    ensures Inv(Move(Store(s, s.calls[c].request.name, map[], s.log), c,
                     Loaded(ConfigMap(s.nextVersion, map[]), |s.log|)), budget)
  {
    var name := s.calls[c].request.name;
    var s' := Move(Store(s, name, map[], s.log), c, Loaded(ConfigMap(s.nextVersion, map[]), |s.log|));
    assert CallInv(s, c, budget);
    assert PoolOf(s, name) == Replay(s.log, name);
    assert s'.log[..|s.log|] == s.log;
    forall n ensures PoolOf(s', n) == Replay(s'.log, n) {
      assert PoolOf(s, n) == Replay(s.log, n);
    }
    forall d | d in s'.calls ensures CallInv(s', d, budget) {
      if d != c {
        BystanderKeepsInv(s, s', d, name, map[], budget);
      }
    }
  }

  /** A step that only moves its own call along keeps the invariant if that call does. */
  lemma LocalKeepsInv(s: State, s': State, c: nat, budget: int)
    requires Inv(s, budget)
    requires s'.cms == s.cms && s'.nextVersion == s.nextVersion && s'.log == s.log
    requires c in s'.calls && s'.calls == s.calls[c := s'.calls[c]]
    requires c in s.calls ==> s'.calls[c].request == s.calls[c].request
    requires CallInv(s', c, budget)
    ensures Inv(s', budget)
  {
    forall d | d in s'.calls ensures CallInv(s', d, budget) {
      if d != c {
        assert CallInv(s, d, budget);
      }
    }
    forall name ensures PoolOf(s', name) == Replay(s'.log, name) {
      assert PoolOf(s, name) == Replay(s.log, name);
    }
  }

  lemma StepKeepsInv(s: State, c: nat, a: Action, budget: int)
    requires Inv(s, budget) && Enabled(s, c, a)
    ensures Inv(Next(s, c, a, budget), budget)
  {
    var s' := Next(s, c, a, budget);
    assert s.log[..|s.log|] == s.log;
    match a
    case StartAcquire(_, _, _, _, _, _) => LocalKeepsInv(s, s', c, budget);
    case StartRelease(_) => LocalKeepsInv(s, s', c, budget);
    case Break(applied) =>
      if applied { CommitKeepsInv(s, c, Failed, budget); }
      else { assert CallInv(s, c, budget); LocalKeepsInv(s, s', c, budget); }
    case Proceed(now, target) =>
      assert CallInv(s, c, budget);
      var call := s.calls[c];
      if CanCommit(s, c) {
        CommitKeepsInv(s, c, if call.phase.Writing? then Acquired(|s.log|) else Released(|s.log|), budget);
      } else if call.phase.Creating? && call.request.name !in s.cms {
        CreateKeepsInv(s, c, budget);
      } else {
        match call.phase {
          case Loaded(_, _) => DecideMoves(s, c, now, target, budget);
          case Listing => ListMoves(s, c, now, target, budget);
          case Writing(_, _, _, _) => ConflictMoves(s, c, now, target, budget);
          case Deleting(_, _, _) => ConflictMoves(s, c, now, target, budget);
          case _ => GetMoves(s, c, now, target, budget);
        }
        LocalKeepsInv(s, s', c, budget);
      }
  }

  /** The step moved this call only, and left it consistent. */
  ghost predicate MovedAlone(s: State, c: nat, s': State, budget: int)
    requires c in s.calls
  {
    && s'.cms == s.cms && s'.nextVersion == s.nextVersion && s'.log == s.log
    && c in s'.calls && s'.calls == s.calls[c := s'.calls[c]]
    && s'.calls[c].request == s.calls[c].request
    && CallInv(s', c, budget)
  }

  lemma GetMoves(s: State, c: nat, now: int, target: string, budget: int)
    requires ServerInv(s, budget) && Enabled(s, c, Proceed(now, target)) && CallInv(s, c, budget)
    requires s.calls[c].phase.Getting? || s.calls[c].phase.Regetting?
        || (s.calls[c].phase.Creating? && s.calls[c].request.name in s.cms)
    ensures MovedAlone(s, c, Next(s, c, Proceed(now, target), budget), budget)
  {
    var name := s.calls[c].request.name;
    assert s.log[..|s.log|] == s.log;
    assert PoolOf(s, name) == Replay(s.log, name);
    hide Replay, Serial, Admit, Held;
  }

  lemma DecideMoves(s: State, c: nat, now: int, target: string, budget: int)
    requires Enabled(s, c, Proceed(now, target)) && CallInv(s, c, budget) && s.calls[c].phase.Loaded?
    ensures MovedAlone(s, c, Next(s, c, Proceed(now, target), budget), budget)
  {
    hide Replay, Admit, Held;
  }

  lemma ConflictMoves(s: State, c: nat, now: int, target: string, budget: int)
    requires Enabled(s, c, Proceed(now, target)) && CallInv(s, c, budget) && !CanCommit(s, c)
    requires s.calls[c].phase.Writing? || s.calls[c].phase.Deleting?
    ensures MovedAlone(s, c, Next(s, c, Proceed(now, target), budget), budget)
  {
    hide Replay, Admit, Held;
  }

  lemma ListMoves(s: State, c: nat, now: int, target: string, budget: int)
    requires ServerInv(s, budget) && Enabled(s, c, Proceed(now, target)) && CallInv(s, c, budget)
        && s.calls[c].phase.Listing?
    ensures MovedAlone(s, c, Next(s, c, Proceed(now, target), budget), budget)
  {
    assert s.log[..|s.log|] == s.log;
    assert PoolOf(s, target) == Replay(s.log, target);
    if s.calls[c].request.id !in PoolOf(s, target) {
      forall name ensures s.calls[c].request.id !in Replay(s.log, name) {
        assert PoolOf(s, name) == Replay(s.log, name);
      }
    }
    hide Replay, Serial, Admit;
  }

  lemma {:induction false} RunKeepsInv(states: seq<State>, i: nat, budget: int)
    requires Run(states, budget) && i < |states|
    ensures Inv(states[i], budget)
  {
    if i == 0 {
      assert INIT.log == [];
    } else {
      RunKeepsInv(states, i - 1, budget);
      assert StepAt(states, i, budget);
      var c: nat, a: Action :| Enabled(states[i - 1], c, a) && states[i] == Next(states[i - 1], c, a, budget);
      StepKeepsInv(states[i - 1], c, a, budget);
    }
  }
}
