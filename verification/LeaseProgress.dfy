// The lease protocol makes progress: an attempt is only ever lost to a write that another call got
// through, so a call that gives up has seen as many of those as it had attempts.
module LeaseProgress {
  import opened LeaseSpec
  import opened LeaseProtocol

  /** A write by another call that an attempt of this one can lose to: to the pool an acquire
      writes, or to a pool that holds what a release is looking for. */
  ghost predicate Rival(log: seq<Commit>, k: nat, c: nat, request: Request)
    requires k < |log|
  {
    log[k].call != c &&
    match request
    case Acquire(name, _) => log[k].name == name
    case Release(id) => id in Replay(log[..k], log[k].name)
  }

  /** How many there were between two points of the log. */
  ghost function Rivals(log: seq<Commit>, from: nat, end: nat, c: nat, request: Request): nat
    requires from <= end <= |log|
    decreases end
  {
    if from == end then 0
    else Rivals(log, from, end - 1, c, request) + if Rival(log, end - 1, c, request) then 1 else 0
  }

  lemma {:induction false} RivalsLater(log: seq<Commit>, from: nat, mid: nat, end: nat, c: nat, request: Request)
    requires from <= mid <= end <= |log|
    ensures Rivals(log, from, mid, c, request) <= Rivals(log, from, end, c, request)
    ensures (exists k :: mid <= k < end && Rival(log, k, c, request)) ==>
              Rivals(log, from, mid, c, request) < Rivals(log, from, end, c, request)
    decreases end
  {
    if mid < end {
      RivalsLater(log, from, mid, end - 1, c, request);
    }
  }

  lemma {:induction false} RivalsKept(log: seq<Commit>, commit: Commit, from: nat, end: nat, c: nat, request: Request)
    requires from <= end <= |log|
    ensures Rivals(log + [commit], from, end, c, request) == Rivals(log, from, end, c, request)
    decreases end
  {
    if from < end {
      RivalsKept(log, commit, from, end - 1, c, request);
      assert (log + [commit])[..end - 1] == log[..end - 1];
    }
  }

  // ----- The invariant -----

  /** The server has left a snapshot's version behind only if somebody has written since. */
  ghost predicate Overtaken(s: State, name: string, cm: ConfigMap, at: nat) {
    && name in s.cms && at <= |s.log|
    && (s.cms[name].version != cm.version ==> exists k :: at <= k < |s.log| && s.log[k].name == name)
  }

  ghost predicate Lost(s: State, c: nat, call: Call, end: nat) {
    && call.started <= end <= |s.log| && 1 <= call.attempts
    && MAX_ATTEMPTS <= call.attempts + Rivals(s.log, call.started, end, c, call.request)
  }

  ghost predicate ProgressInv(s: State, c: nat)
    requires c in s.calls
  {
    var call := s.calls[c];
    match call.phase
    case Loaded(cm, at) => RequestOk(call) && Lost(s, c, call, at) && Overtaken(s, call.request.name, cm, at)
    case Writing(cm, at, _, _) => RequestOk(call) && Lost(s, c, call, at) && Overtaken(s, call.request.name, cm, at)
    case Deleting(name, cm, at) => Lost(s, c, call, at) && Overtaken(s, name, cm, at)
    case Finished(outcome, end) =>
      outcome.GaveUp? ==>
        call.started <= end <= |s.log| && MAX_ATTEMPTS <= Rivals(s.log, call.started, end, c, call.request)
    case _ => Lost(s, c, call, |s.log|)
  }

  lemma {:induction false} QuietReplay(log: seq<Commit>, at: nat, k: nat, name: string)
    requires at <= k <= |log| && forall j | at <= j < k :: log[j].name != name
    ensures Replay(log[..k], name) == Replay(log[..at], name)
    decreases k
  {
    if at < k {
      QuietReplay(log, at, k - 1, name);
      assert log[..k][..k - 1] == log[..k - 1];
    }
  }

  lemma FirstWrite(log: seq<Commit>, at: nat, name: string, k: nat) returns (first: nat)
    requires at <= k < |log| && log[k].name == name
    ensures at <= first < |log| && log[first].name == name
    ensures Replay(log[..first], name) == Replay(log[..at], name)
  {
    first := at;
    while log[first].name != name
      invariant at <= first <= k && forall j | at <= j < first :: log[j].name != name
      decreases k - first
    {
      first := first + 1;
    }
    QuietReplay(log, at, first, name);
  }

  /** An update that conflicts has lost to a rival since its snapshot. */
  lemma ConflictHasRival(s: State, c: nat, at: nat, budget: int)
    requires Inv(s, budget) && c in s.calls && ProgressInv(s, c) && RequestOk(s.calls[c]) && !CanCommit(s, c)
    requires match s.calls[c].phase
             case Writing(_, a, _, _) => a == at
             case Deleting(_, _, a) => a == at
             case _ => false
    ensures at <= |s.log| && exists k :: at <= k < |s.log| && Rival(s.log, k, c, s.calls[c].request)
  {
    var call := s.calls[c];
    assert CallInv(s, c, budget);
    hide ServerInv, LogInv, Inv;
    var name := if call.phase.Writing? then call.request.name else call.phase.name;
    var k :| at <= k < |s.log| && s.log[k].name == name;
    var first := FirstWrite(s.log, at, name, k);
    assert Rival(s.log, first, c, call.request);
  }

  // ----- Every step keeps it -----

  /** The server's state as far as a call that takes no part in a step can see it. */
  ghost predicate Grown(s: State, s': State) {
    && (s'.log == s.log || exists commit :: s'.log == s.log + [commit])
    && (forall name | name in s.cms :: name in s'.cms &&
          (s'.cms[name].version != s.cms[name].version ==> |s'.log| == |s.log| + 1 && s'.log[|s.log|].name == name))
  }

  lemma OvertakenGrows(s: State, s': State, name: string, cm: ConfigMap, at: nat)
    requires Grown(s, s') && Overtaken(s, name, cm, at)
    ensures Overtaken(s', name, cm, at)
  {
    if s'.cms[name].version != cm.version {
      if s'.cms[name].version != s.cms[name].version {
        assert s'.log[|s.log|].name == name;
      } else {
        var k :| at <= k < |s.log| && s.log[k].name == name;
        assert s'.log[k] == s.log[k];
      }
    }
  }

  lemma LostGrows(s: State, s': State, d: nat, call: Call, end: nat)
    requires Grown(s, s') && Lost(s, d, call, end)
    ensures Lost(s', d, call, end) && Lost(s', d, call, |s'.log|)
  {
    if s'.log != s.log {
      var commit :| s'.log == s.log + [commit];
      RivalsKept(s.log, commit, call.started, end, d, call.request);
    }
    RivalsLater(s'.log, call.started, end, |s'.log|, d, call.request);
  }

  lemma BystanderProgress(s: State, s': State, d: nat)
    requires Grown(s, s') && d in s.calls && d in s'.calls && s'.calls[d] == s.calls[d] && ProgressInv(s, d)
    ensures ProgressInv(s', d)
  {
    var call := s.calls[d];
    hide Rival, Rivals, Lost, Overtaken, Grown;
    match call.phase
    case Loaded(cm, at) => LostGrows(s, s', d, call, at); OvertakenGrows(s, s', call.request.name, cm, at);
    case Writing(cm, at, _, _) => LostGrows(s, s', d, call, at); OvertakenGrows(s, s', call.request.name, cm, at);
    case Deleting(name, cm, at) => LostGrows(s, s', d, call, at); OvertakenGrows(s, s', name, cm, at);
    case Finished(outcome, end) =>
      if outcome.GaveUp? {
        GaveUpGrows(s, s', d, call, end);
      }
    case _ => LostGrows(s, s', d, call, |s.log|);
  }

  lemma GaveUpGrows(s: State, s': State, d: nat, call: Call, end: nat)
    requires Grown(s, s') && call.started <= end <= |s.log|
    ensures end <= |s'.log|
    ensures Rivals(s'.log, call.started, end, d, call.request) == Rivals(s.log, call.started, end, d, call.request)
  {
    if s'.log != s.log {
      var commit :| s'.log == s.log + [commit];
      RivalsKept(s.log, commit, call.started, end, d, call.request);
    }
  }

  lemma StepGrows(s: State, c: nat, a: Action, budget: int)
    requires Enabled(s, c, a)
    ensures Grown(s, Next(s, c, a, budget))
  {
    hide Admit, RequestedLease, ConfigMapName, Held;
  }

  /** The call that loses an attempt counts one more rival. */
  lemma ConflictProgress(s: State, c: nat, at: nat, budget: int)
    requires Inv(s, budget) && c in s.calls && ProgressInv(s, c) && RequestOk(s.calls[c]) && !CanCommit(s, c)
    requires match s.calls[c].phase
             case Writing(_, a, _, _) => a == at
             case Deleting(_, _, a) => a == at
             case _ => false
    ensures ProgressInv(Conflict(s, c), c)
  {
    hide Inv, Rival, Overtaken, CanCommit;
    var call := s.calls[c];
    ConflictHasRival(s, c, at, budget);
    RivalsLater(s.log, call.started, at, |s.log|, c, call.request);
  }

  lemma OwnProgress(s: State, c: nat, a: Action, budget: int)
    requires Inv(s, budget) && Enabled(s, c, a) && (c in s.calls ==> ProgressInv(s, c))
    ensures ProgressInv(Next(s, c, a, budget), c)
  {
    hide Inv, Admit, RequestedLease, ConfigMapName, Held;
    if a.Proceed? && !CanCommit(s, c) {
      match s.calls[c].phase
      case Writing(_, at, _, _) => ConflictProgress(s, c, at, budget);
      case Deleting(_, _, at) => ConflictProgress(s, c, at, budget);
      case _ =>
    }
  }

  lemma {:induction false} RunProgress(states: seq<State>, i: nat, c: nat, budget: int)
    requires Run(states, budget) && i < |states| && c in states[i].calls
    ensures ProgressInv(states[i], c)
  {
    if i > 0 {
      assert StepAt(states, i, budget);
      var d: nat, a: Action :| Enabled(states[i - 1], d, a) && states[i] == Next(states[i - 1], d, a, budget);
      if c in states[i - 1].calls {
        RunProgress(states, i - 1, c, budget);
      }
      if c == d {
        RunKeepsInv(states, i - 1, budget);
        OwnProgress(states[i - 1], c, a, budget);
      } else {
        StepGrows(states[i - 1], d, a, budget);
        OtherCallKept(states[i - 1], d, a, c, budget);
        BystanderProgress(states[i - 1], states[i], c);
      }
    }
  }

  lemma OtherCallKept(s: State, c: nat, a: Action, d: nat, budget: int)
    requires Enabled(s, c, a) && d != c && d in Next(s, c, a, budget).calls
    ensures d in s.calls && Next(s, c, a, budget).calls[d] == s.calls[d]
  {
    hide Admit, RequestedLease, ConfigMapName, Held;
  }

  /** No call has more than five attempts, and one that goes on has at least one left. */
  lemma {:induction false} AttemptsLeft(states: seq<State>, i: nat, c: nat, budget: int)
    requires Run(states, budget) && i < |states| && c in states[i].calls
    ensures 1 <= states[i].calls[c].attempts <= 5
  {
    if i > 0 {
      assert StepAt(states, i, budget);
      var d: nat, a: Action :| Enabled(states[i - 1], d, a) && states[i] == Next(states[i - 1], d, a, budget);
      if c in states[i - 1].calls {
        AttemptsLeft(states, i - 1, c, budget);
      }
      if c == d {
        OwnAttempts(states[i - 1], c, a, budget);
      } else {
        OtherCallKept(states[i - 1], d, a, c, budget);
      }
    }
  }

  lemma OwnAttempts(s: State, c: nat, a: Action, budget: int)
    requires Enabled(s, c, a) && (c in s.calls ==> 1 <= s.calls[c].attempts <= 5)
    ensures c in Next(s, c, a, budget).calls && 1 <= Next(s, c, a, budget).calls[c].attempts <= 5
  {
    hide Admit, RequestedLease, ConfigMapName, Held;
  }

  /** A call that gave up on conflicts saw, between its start and its end, at least as many writes
      by other calls to the pools it was after as it had attempts, and made none itself. */
  lemma GivesUpOnlyToRivals(states: seq<State>, i: nat, c: nat, budget: int)
    requires Run(states, budget) && i < |states| && c in states[i].calls
    requires states[i].calls[c].phase.Finished? && states[i].calls[c].phase.outcome.GaveUp?
    ensures var s, call := states[i], states[i].calls[c];
            && call.started <= call.phase.end <= |s.log|
            && 5 <= Rivals(s.log, call.started, call.phase.end, c, call.request)
            && forall k | 0 <= k < |s.log| :: s.log[k].call != c
  {
    RunProgress(states, i, c, budget);
    RunKeepsInv(states, i, budget);
    assert CallInv(states[i], c, budget);
  }

  // ----- Failures -----

  /** Who lost the race to create a ConfigMap finds it the second time. */
  ghost predicate Created(s: State) {
    forall c | c in s.calls && s.calls[c].request.Acquire? && s.calls[c].phase.Regetting? ::
        s.calls[c].request.name in s.cms
  }

  lemma StepKeepsCreated(s: State, c: nat, a: Action, budget: int)
    requires Created(s) && Enabled(s, c, a)
    ensures Created(Next(s, c, a, budget))
  {
    hide Admit, RequestedLease, ConfigMapName;
  }

  lemma {:induction false} RunKeepsCreated(states: seq<State>, budget: int, i: nat)
    requires Run(states, budget) && i < |states|
    ensures Created(states[i])
  {
    if i > 0 {
      RunKeepsCreated(states, budget, i - 1);
      hide Enabled, Next, Created;
      assert StepAt(states, i, budget);
      var c: nat, a: Action :| Enabled(states[i - 1], c, a) && states[i] == Next(states[i - 1], c, a, budget);
      StepKeepsCreated(states[i - 1], c, a, budget);
    }
  }

  ghost predicate HasFailed(s: State, c: nat) {
    c in s.calls && s.calls[c].phase.Finished? && s.calls[c].phase.outcome.Failed?
  }

  lemma FailsByBreaking(s: State, c: nat, d: nat, a: Action, budget: int)
    requires Created(s) && Enabled(s, d, a)
    requires !HasFailed(s, c) && HasFailed(Next(s, d, a, budget), c)
    ensures d == c && a.Break?
  {
    hide Admit, RequestedLease, ConfigMapName;
  }

  /** A call ends in failure only when one of its own requests failed: losing a race, finding nothing
      and being refused are no failures. */
  lemma FailsOnlyOnError(states: seq<State>, budget: int, i: nat, c: nat)
    requires Run(states, budget) && i + 1 < |states|
    requires !HasFailed(states[i], c) && HasFailed(states[i + 1], c)
    ensures exists applied: bool :: Enabled(states[i], c, Break(applied))
              && states[i + 1] == Next(states[i], c, Break(applied), budget)
  {
    RunKeepsCreated(states, budget, i);
    hide Enabled, Next, Created, HasFailed;
    assert StepAt(states, i + 1, budget);
    var d: nat, a: Action :| Enabled(states[i], d, a) && states[i + 1] == Next(states[i], d, a, budget);
    FailsByBreaking(states[i], c, d, a, budget);
    assert a == Break(a.applied);
  }
}
