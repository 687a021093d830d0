// What every interleaving of the concurrent lease store guarantees.
module LeaseTheorems {
  import opened LeaseSpec
  import opened LeaseProtocol
  import GoInt
  import Text

  // ----- Serializability, in real-time order -----

  /** The stored maps are those of the committed operations run one at a time in commit order,
      each operation succeeding alone; and every finished call matches that order: a success is
      exactly one entry of the log, a refusal was right about the pool at its load, and a call
      that gave up has no entry. */
  lemma Serializable(states: seq<State>, i: nat, budget: int)
    requires Run(states, budget) && i < |states|
    ensures Serial(states[i].log, budget)
    ensures forall name :: PoolOf(states[i], name) == Replay(states[i].log, name)
    ensures forall j, k | 0 <= j < k < |states[i].log| :: states[i].log[j].call != states[i].log[k].call
    ensures forall j | 0 <= j < |states[i].log| :: MadeBy(states[i], states[i].log[j])
    ensures forall c | c in states[i].calls && states[i].calls[c].phase.Finished? ::
              OutcomeInv(states[i], c, states[i].calls[c], states[i].calls[c].phase.outcome,
                  states[i].calls[c].phase.end, budget)
  {
    RunKeepsInv(states, i, budget);
    forall c | c in states[i].calls && states[i].calls[c].phase.Finished?
      ensures OutcomeInv(states[i], c, states[i].calls[c], states[i].calls[c].phase.outcome,
          states[i].calls[c].phase.end, budget)
    {
      assert CallInv(states[i], c, budget);
    }
  }

  /** How one state of a run relates to a later one. */
  ghost predicate Later(s: State, s': State) {
    && s.log <= s'.log
    && (forall c | c in s.calls :: c in s'.calls && SameCall(s.calls[c], s'.calls[c]))
    && (forall c | c in s'.calls && c !in s.calls :: |s.log| <= s'.calls[c].started)
  }

  ghost predicate SameCall(call: Call, call': Call) {
    && call.request == call'.request && call.started == call'.started
    && (call.phase.Finished? ==> call == call')
  }

  lemma StepIsLater(s: State, c: nat, a: Action, budget: int)
    requires Enabled(s, c, a)
    ensures Later(s, Next(s, c, a, budget))
  {
    hide Admit, RequestedLease, ConfigMapName;
    match a
    case Proceed(_, _) =>
      if CanCommit(s, c) {
        assert s.log <= Next(s, c, a, budget).log;
      }
    case _ =>
  }

  lemma {:induction false} RunIsLater(states: seq<State>, i: nat, j: nat, budget: int)
    requires Run(states, budget) && i <= j < |states|
    ensures Later(states[i], states[j])
    decreases j - i
  {
    if i < j {
      RunIsLater(states, i, j - 1, budget);
      assert StepAt(states, j, budget);
      var c: nat, a: Action :| Enabled(states[j - 1], c, a) && states[j] == Next(states[j - 1], c, a, budget);
      StepIsLater(states[j - 1], c, a, budget);
      LaterTransitive(states[i], states[j - 1], states[j]);
    }
  }

  lemma LaterTransitive(s: State, t: State, u: State)
    requires Later(s, t) && Later(t, u)
    ensures Later(s, u)
  {
    forall c | c in s.calls ensures c in u.calls && SameCall(s.calls[c], u.calls[c]) {
      assert SameCall(s.calls[c], t.calls[c]) && SameCall(t.calls[c], u.calls[c]);
    }
    forall c | c in u.calls && c !in s.calls ensures |s.log| <= u.calls[c].started {
      if c in t.calls { assert SameCall(t.calls[c], u.calls[c]); }
    }
  }

  /** The call returned an answer, and not an error of the server. */
  predicate Answered(call: Call) {
    call.phase.Finished? && !call.phase.outcome.Failed? && !call.phase.outcome.GaveUp?
  }

  /** The log position a call is serialized at: its own commit, or the snapshot it answered from. */
  function Position(outcome: Outcome): nat
    requires !outcome.Failed? && !outcome.GaveUp?
  {
    match outcome
    case Acquired(point) => point
    case Released(point) => point
    case Rejected(at, _, _) => at
    case NothingToRelease(at) => at
  }

  lemma PositionBounds(states: seq<State>, i: nat, c: nat, budget: int)
    requires Run(states, budget) && i < |states| && c in states[i].calls
    requires Answered(states[i].calls[c])
    ensures var call := states[i].calls[c]; var p := call.phase.outcome;
            && call.started <= Position(p) <= call.phase.end <= |states[i].log|
            && (p.Acquired? || p.Released? ==> Position(p) < call.phase.end)
  {
    RunKeepsInv(states, i, budget);
    assert CallInv(states[i], c, budget);
  }

  /** The serial order respects real time: when call c had returned before call d began, d comes
      after c, and d's answer takes c's commit into account. */
  lemma RealTimeOrder(states: seq<State>, i: nat, j: nat, c: nat, d: nat, budget: int)
    requires Run(states, budget) && i <= j < |states|
    requires c in states[i].calls && Answered(states[i].calls[c])
    requires d !in states[i].calls
    requires d in states[j].calls && Answered(states[j].calls[d])
    ensures c in states[j].calls && states[j].calls[c] == states[i].calls[c]
    ensures var p, q := states[j].calls[c].phase.outcome, states[j].calls[d].phase.outcome;
            if p.Acquired? || p.Released? then Position(p) < Position(q) else Position(p) <= Position(q)
  {
    assert c in states[j].calls && states[j].calls[c] == states[i].calls[c]
        && |states[i].log| <= states[j].calls[d].started by {
      RunIsLater(states, i, j, budget);
      assert SameCall(states[i].calls[c], states[j].calls[c]);
    }
    PositionBounds(states, i, c, budget);
    PositionBounds(states, j, d, budget);
  }

  // ----- Budget safety -----

  /** No pool ever holds more than the budget, expired leases included. */
  ghost predicate WithinBudget(log: seq<Commit>, budget: int) {
    forall n, name {:trigger Replay(log[..n], name)} | 0 <= n <= |log| :: Slots(Replay(log[..n], name)) <= budget
  }

  /** What one commit has to satisfy: an admitted lease fits, and a removed one that counts
      negatively leaves a pool that is within the budget without it. */
  ghost predicate CommitFits(pool: Pool, change: Change, budget: int) {
    match change
    case Admitted(lease, now) => Fits(pool, lease, now, budget)
    case Removed(id) => id in pool && pool[id].slots < 0 ==> Slots(pool) - pool[id].slots <= budget
  }

  ghost predicate AllFit(log: seq<Commit>, budget: int) {
    forall i | 0 <= i < |log| :: CommitFits(Replay(log[..i], log[i].name), log[i].change, budget)
  }

  lemma SlotsEmpty()
    ensures Slots(map[]) == 0
  {
  }

  /** One more commit, of any lease: exactly its own guard decides whether the budget still holds. */
  lemma BudgetStep(log: seq<Commit>, n: nat, name: string, budget: int)
    requires n < |log| && Serial(log, budget) && 0 <= budget <= GoInt.MAX_INT
    requires Slots(Replay(log[..n], name)) <= budget
    ensures Slots(Replay(log[..n + 1], name)) <= budget <==>
              (log[n].name == name ==> CommitFits(Replay(log[..n], name), log[n].change, budget))
  {
    assert log[..n + 1][..n] == log[..n];
    var pool, pool' := Replay(log[..n], name), Replay(log[..n + 1], name);
    assert pool' == Apply(pool, log[n], name);
    assert SerialStep(log, n, budget);
    if log[n].name == name {
      match log[n].change
      case Admitted(lease, now) => AdmitWithinBudget(pool, lease, now, budget);
      case Removed(id) => SlotsRemove(pool, id);
    }
  }

  lemma {:induction false} AllFitKeepsBudget(log: seq<Commit>, n: nat, name: string, budget: int)
    requires n <= |log| && Serial(log, budget) && 0 <= budget <= GoInt.MAX_INT
    requires AllFit(log, budget)
    ensures Slots(Replay(log[..n], name)) <= budget
  {
    if n == 0 {
      SlotsEmpty();
    } else {
      AllFitKeepsBudget(log, n - 1, name, budget);
      BudgetStep(log, n - 1, name, budget);
    }
  }

  /** Budget safety over a whole history of any leases, in both directions: the budget was never
      exceeded exactly when every commit fitted the pool it was made to. */
  lemma BudgetSafetyExact(log: seq<Commit>, budget: int)
    requires Serial(log, budget) && 0 <= budget <= GoInt.MAX_INT
    ensures WithinBudget(log, budget) <==> AllFit(log, budget)
  {
    if AllFit(log, budget) {
      forall n, name | 0 <= n <= |log| ensures Slots(Replay(log[..n], name)) <= budget {
        AllFitKeepsBudget(log, n, name, budget);
      }
    }
    if WithinBudget(log, budget) {
      forall i | 0 <= i < |log| ensures CommitFits(Replay(log[..i], log[i].name), log[i].change, budget) {
        assert Slots(Replay(log[..i], log[i].name)) <= budget;
        assert Slots(Replay(log[..i + 1], log[i].name)) <= budget;
        BudgetStep(log, i, log[i].name, budget);
      }
    }
  }

  lemma OneCommitAtMost(s: State, c: nat, a: Action, budget: int)
    requires Enabled(s, c, a)
    ensures |Next(s, c, a, budget).log| <= |s.log| + 1
  {
    hide Admit, RequestedLease, ConfigMapName;
  }

  /** Every beginning of a run's log was the whole log at some point of the run. */
  lemma {:induction false} LogWasReached(states: seq<State>, i: nat, n: nat, budget: int) returns (j: nat)
    requires Run(states, budget) && i < |states| && n <= |states[i].log|
    ensures j <= i && states[j].log == states[i].log[..n]
  {
    if n == |states[i].log| {
      j := i;
    } else {
      assert StepAt(states, i, budget);
      var c: nat, a: Action :| Enabled(states[i - 1], c, a) && states[i] == Next(states[i - 1], c, a, budget);
      OneCommitAtMost(states[i - 1], c, a, budget);
      StepIsLater(states[i - 1], c, a, budget);
      j := LogWasReached(states, i - 1, n, budget);
    }
  }

  /** The same for the pools of a run, for any requests: up to any state they stayed within the
      budget exactly when every commit so far fitted. */
  lemma BudgetOverRuns(states: seq<State>, i: nat, configured: int)
    requires configured <= GoInt.MAX_INT
    requires Run(states, SlotBudget(configured)) && i < |states|
    ensures (forall j, name | 0 <= j <= i :: Slots(PoolOf(states[j], name)) <= SlotBudget(configured))
       <==> AllFit(states[i].log, SlotBudget(configured))
  {
    var budget, log := SlotBudget(configured), states[i].log;
    Serializable(states, i, budget);
    BudgetSafetyExact(log, budget);
    if AllFit(log, budget) {
      forall j, name | 0 <= j <= i ensures Slots(PoolOf(states[j], name)) <= budget {
        RunIsLater(states, j, i, budget);
        Serializable(states, j, budget);
        assert states[j].log == log[..|states[j].log|];
        AllFitKeepsBudget(log, |states[j].log|, name, budget);
      }
    }
    if forall j, name | 0 <= j <= i :: Slots(PoolOf(states[j], name)) <= budget {
      forall n, name | 0 <= n <= |log| ensures Slots(Replay(log[..n], name)) <= budget {
        var j := LogWasReached(states, i, n, budget);
        Serializable(states, j, budget);
        assert PoolOf(states[j], name) == Replay(log[..n], name);
      }
    }
  }

  /** Requests of a sensible size, where acquiring a lease that is held asks for no more slots than
      it holds. */
  ghost predicate Modest(log: seq<Commit>, budget: int) {
    forall k | 0 <= k < |log| :: ModestCommit(Replay(log[..k], log[k].name), log[k].change, budget)
  }

  ghost predicate ModestCommit(pool: Pool, change: Change, budget: int) {
    match change
    case Removed(_) => true
    case Admitted(lease, now) =>
      && 0 <= lease.slots <= GoInt.MAX_INT - budget
      && (lease.id in Unexpired(pool, now) ==> lease.slots <= pool[lease.id].slots)
  }

  lemma {:induction false} StoredWasAdmitted(log: seq<Commit>, name: string, id: string)
    requires id in Replay(log, name)
    ensures Replay(log, name)[id].id == id
    ensures exists i ::
              && 0 <= i < |log| && log[i].name == name && log[i].change.Admitted?
              && log[i].change.lease == Replay(log, name)[id]
  {
    var init, last := log[..|log| - 1], log[|log| - 1];
    if last.name == name && last.change.Admitted? && last.change.lease.id == id {
      assert log[|log| - 1].change.lease == Replay(log, name)[id];
    } else {
      StoredWasAdmitted(init, name, id);
      var i :| 0 <= i < |init| && init[i].name == name && init[i].change.Admitted?
          && init[i].change.lease == Replay(init, name)[id];
      assert log[i] == init[i];
    }
  }

  lemma ModestCommitFits(pool: Pool, change: Change, budget: int)
    requires ModestCommit(pool, change, budget) && 0 <= budget <= GoInt.MAX_INT
    requires NonNegative(pool) && Slots(pool) <= budget
    ensures CommitFits(pool, change, budget)
  {
    if change.Admitted? {
      SlotsMonotone(Unexpired(pool, change.now), pool);
    }
  }

  lemma {:induction false} ModestKeepsBudget(log: seq<Commit>, n: nat, name: string, budget: int)
    requires n <= |log| && Serial(log, budget) && 0 <= budget <= GoInt.MAX_INT
    requires Modest(log, budget)
    ensures NonNegative(Replay(log[..n], name)) && Slots(Replay(log[..n], name)) <= budget
  {
    if n == 0 {
      SlotsEmpty();
    } else {
      ModestKeepsBudget(log, n - 1, name, budget);
      assert log[..n][..n - 1] == log[..n - 1];
      if log[n - 1].name == name {
        ModestCommitFits(Replay(log[..n - 1], name), log[n - 1].change, budget);
      }
      BudgetStep(log, n - 1, name, budget);
    }
  }

  /** In every state of every run with modest requests, no pool exceeds its budget, whatever the
      workers' clocks say and however their calls interleave or fail. */
  lemma BudgetSafety(states: seq<State>, i: nat, configured: int)
    requires configured <= GoInt.MAX_INT
    requires Run(states, SlotBudget(configured)) && i < |states|
    requires Modest(states[i].log, SlotBudget(configured))
    ensures forall name :: Slots(PoolOf(states[i], name)) <= SlotBudget(configured)
  {
    var budget := SlotBudget(configured);
    var log := states[i].log;
    Serializable(states, i, budget);
    forall name ensures Slots(PoolOf(states[i], name)) <= budget {
      assert log[..|log|] == log;
      ModestKeepsBudget(log, |log|, name, budget);
      assert PoolOf(states[i], name) == Replay(log, name);
    }
  }

  lemma SerialPrefix(log: seq<Commit>, n: nat, budget: int)
    requires Serial(log, budget) && n <= |log|
    ensures Serial(log[..n], budget)
  {
    forall i | 0 <= i < n ensures SerialStep(log[..n], i, budget) {
      assert SerialStep(log, i, budget);
      assert log[..n][..i] == log[..i] && log[..n][..i + 1] == log[..i + 1];
    }
  }

  // ----- No lost updates -----

  /** The commit takes this lease out of its pool: it removes it, replaces it, or prunes it. */
  predicate TakesOut(commit: Commit, name: string, lease: Lease) {
    commit.name == name &&
    match commit.change
    case Removed(id) => id == lease.id
    case Admitted(other, now) => other.id == lease.id || lease.expiresAt < now
  }

  ghost predicate Survives(log: seq<Commit>, i: nat, name: string, lease: Lease) {
    && i < |log| && log[i].name == name && log[i].change.Admitted? && log[i].change.lease == lease
    && forall k | i < k < |log| :: !TakesOut(log[k], name, lease)
  }

  /** A pool holds exactly the leases that were committed to it and not taken out since: nothing
      is lost to a concurrent writer and nothing comes back. */
  lemma {:induction false} NothingLost(log: seq<Commit>, name: string, lease: Lease)
    ensures lease.id in Replay(log, name) && Replay(log, name)[lease.id] == lease <==>
        exists i: nat :: Survives(log, i, name, lease)
  {
    if log != [] {
      var init, last := log[..|log| - 1], log[|log| - 1];
      NothingLost(init, name, lease);
      var stored := lease.id in Replay(log, name) && Replay(log, name)[lease.id] == lease;
      if stored {
        if last.name == name && last.change.Admitted? && last.change.lease.id == lease.id {
          assert Survives(log, |log| - 1, name, lease);
        } else {
          var i: nat :| Survives(init, i, name, lease);
          forall k | i < k < |log| ensures !TakesOut(log[k], name, lease) {
            if k < |init| { assert log[k] == init[k]; }
          }
          assert Survives(log, i, name, lease);
        }
      }
      if i: nat :| Survives(log, i, name, lease) {
        if i < |init| {
          assert Survives(init, i, name, lease) by {
            forall k | i < k < |init| ensures !TakesOut(init[k], name, lease) { assert init[k] == log[k]; }
          }
          assert !TakesOut(last, name, lease);
        }
      }
    }
  }

  ghost predicate FreshIds(s: State) {
    forall c, d | c in s.calls && d in s.calls && c != d && s.calls[c].request.Acquire?
        && s.calls[d].request.Acquire? ::
      s.calls[c].request.lease.id != s.calls[d].request.lease.id
  }

  lemma FreshAdmittedOnce(s: State, j: nat, k: nat, budget: int)
    requires Inv(s, budget) && FreshIds(s) && j < |s.log| && k < |s.log|
    requires s.log[j].change.Admitted? && s.log[k].change.Admitted?
        && s.log[j].change.lease.id == s.log[k].change.lease.id
    ensures j == k
  {
    assert MadeBy(s, s.log[j]) && MadeBy(s, s.log[k]);
  }

  /** A removal found the lease it removed, so an earlier entry had admitted it to that pool. */
  lemma RemovedWasAdmitted(log: seq<Commit>, k: nat, budget: int) returns (a: nat)
    requires Serial(log, budget) && k < |log| && log[k].change.Removed?
    ensures a < k && log[a].name == log[k].name && log[a].change.Admitted? && log[a].change.lease.id == log[k].change.id
  {
    var id, home := log[k].change.id, log[k].name;
    assert SerialStep(log, k, budget);
    StoredWasAdmitted(log[..k], home, id);
    a :| 0 <= a < k && log[..k][a].name == home && log[..k][a].change.Admitted?
        && log[..k][a].change.lease == Replay(log[..k], home)[id];
  }

  /** With fresh lease IDs, a lease that a release took out is in no pool from then on, even if
      acquires that loaded before the release commit after it. */
  lemma ReleasedStaysReleased(states: seq<State>, i: nat, k: nat, n: nat, name: string, budget: int)
    requires Run(states, budget) && i < |states| && FreshIds(states[i])
    requires k < n <= |states[i].log| && states[i].log[k].change.Removed?
    ensures states[i].log[k].change.id !in Replay(states[i].log[..n], name)
  {
    var s := states[i];
    var id := s.log[k].change.id;
    RunKeepsInv(states, i, budget);
    var a := RemovedWasAdmitted(s.log, k, budget);
    var log := s.log[..n];
    if id in Replay(log, name) {
      var lease := Replay(log, name)[id];
      StoredWasAdmitted(log, name, id);
      NothingLost(log, name, lease);
      var b: nat :| Survives(log, b, name, lease);
      assert log[b] == s.log[b] && log[k] == s.log[k];
      FreshAdmittedOnce(s, a, b, budget);
      assert TakesOut(log[k], name, lease);
      assert false;
    }
  }

  /** With fresh lease IDs, a committed lease is still in its pool unless it was released or an
      acquire whose clock had passed its expiry pruned it. */
  lemma CommittedLeaseStays(states: seq<State>, i: nat, a: nat, budget: int)
    requires Run(states, budget) && i < |states| && FreshIds(states[i])
    requires a < |states[i].log| && states[i].log[a].change.Admitted?
    ensures var s := states[i]; var lease := s.log[a].change.lease;
            && (forall k | a < k < |s.log| && s.log[k].name == s.log[a].name ::
                  && s.log[k].change != Removed(lease.id)
                  && !(s.log[k].change.Admitted? && lease.expiresAt < s.log[k].change.now))
            <==> lease.id in PoolOf(s, s.log[a].name)
  {
    var s := states[i];
    var lease, name := s.log[a].change.lease, s.log[a].name;
    RunKeepsInv(states, i, budget);
    assert PoolOf(s, name) == Replay(s.log, name);
    forall k | 0 <= k < |s.log| && k != a && s.log[k].change.Admitted? ensures s.log[k].change.lease.id != lease.id {
      if s.log[k].change.lease.id == lease.id { FreshAdmittedOnce(s, a, k, budget); }
    }
    NothingLost(s.log, name, lease);
    if lease.id in PoolOf(s, name) {
      StoredWasAdmitted(s.log, name, lease.id);
      var b: nat :| Survives(s.log, b, name, lease);
      assert b == a;
    }
    if forall k | a < k < |s.log| && s.log[k].name == name ::
         s.log[k].change != Removed(lease.id) && !(s.log[k].change.Admitted? && lease.expiresAt < s.log[k].change.now) {
      assert Survives(s.log, a, name, lease);
    }
  }

  /** A call's request is what it was begun with. */
  lemma BegunWith(states: seq<State>, j: nat, i: nat, c: nat, a: Action, budget: int)
    requires Run(states, budget) && j < i < |states| && a.StartAcquire?
    requires Enabled(states[j], c, a) && states[j + 1] == Next(states[j], c, a, budget)
    ensures c in states[i].calls
    ensures var pool := Text.StringOr(a.nodePool, "default");
            var lease := RequestedLease(a.id, pool, a.resources, a.owner, a.ttl, a.clock);
            states[i].calls[c].request == Acquire(ConfigMapName(pool), lease)
  {
    var pool := Text.StringOr(a.nodePool, "default");
    assert states[j + 1].calls[c].request
        == Acquire(ConfigMapName(pool), RequestedLease(a.id, pool, a.resources, a.owner, a.ttl, a.clock));
    hide Next, Enabled, Run, RequestedLease, ConfigMapName, Text.StringOr;
    RunIsLater(states, j + 1, i, budget);
    assert SameCall(states[j + 1].calls[c], states[i].calls[c]);
  }

  /** A lease acquired at `clock` for `ttl`, and not acquired again, is in its pool exactly while it
      has not been released and no acquire there has read a clock past `clock + ttl`. */
  lemma GrantedLeaseLasts(states: seq<State>, j: nat, i: nat, c: nat, a: Action, budget: int)
    requires Run(states, budget) && j < i < |states| && a.StartAcquire?
    requires Enabled(states[j], c, a) && states[j + 1] == Next(states[j], c, a, budget)
    requires c in states[i].calls && states[i].calls[c].phase.Finished? && states[i].calls[c].phase.outcome.Acquired?
    ensures var log, point := states[i].log, states[i].calls[c].phase.outcome.point;
            var name := ConfigMapName(Text.StringOr(a.nodePool, "default"));
            && point < |log|
            && ((forall k | point < k < |log| && log[k].name == name && log[k].change.Admitted? ::
                   log[k].change.lease.id != a.id) ==>
                 (a.id in PoolOf(states[i], name) <==>
                    forall k | point < k < |log| && log[k].name == name ::
                      && log[k].change != Removed(a.id)
                      && (log[k].change.Admitted? ==> log[k].change.now <= a.clock + a.ttl)))
  {
    BegunWith(states, j, i, c, a, budget);
    RunKeepsInv(states, i, budget);
    assert CallInv(states[i], c, budget);
    var s := states[i];
    var log, point := s.log, s.calls[c].phase.outcome.point;
    var pool := Text.StringOr(a.nodePool, "default");
    var name, lease := ConfigMapName(pool), RequestedLease(a.id, pool, a.resources, a.owner, a.ttl, a.clock);
    assert log[point].name == name && log[point].change.Admitted? && log[point].change.lease == lease;
    assert lease.id == a.id && lease.expiresAt == a.clock + a.ttl;
    assert PoolOf(s, name) == Replay(log, name);
    hide Run, Enabled, Next, Inv, CallInv, ServerInv, LogInv, ConfigMapName, RequestedLease, Text.StringOr, PoolOf;
    if forall k | point < k < |log| && log[k].name == name && log[k].change.Admitted? ::
        log[k].change.lease.id != a.id {
      HeldSince(log, point, name, lease);
    }
  }

  lemma HeldSince(log: seq<Commit>, point: nat, name: string, lease: Lease)
    requires point < |log| && log[point].name == name && log[point].change.Admitted? && log[point].change.lease == lease
    requires forall k | point < k < |log| && log[k].name == name && log[k].change.Admitted? ::
        log[k].change.lease.id != lease.id
    ensures lease.id in Replay(log, name) <==>
              forall k | point < k < |log| && log[k].name == name ::
                && log[k].change != Removed(lease.id)
                && (log[k].change.Admitted? ==> log[k].change.now <= lease.expiresAt)
  {
    NothingLost(log, name, lease);
    if lease.id in Replay(log, name) {
      var held := Replay(log, name)[lease.id];
      StoredWasAdmitted(log, name, lease.id);
      NothingLost(log, name, held);
      var b: nat :| Survives(log, b, name, held);
      assert b < point ==> TakesOut(log[point], name, held);
      assert b == point;
      forall k | point < k < |log| && log[k].name == name
        ensures log[k].change != Removed(lease.id) && (log[k].change.Admitted? ==> log[k].change.now <= lease.expiresAt)
      {
        assert !TakesOut(log[k], name, held);
      }
    }
    if forall k | point < k < |log| && log[k].name == name ::
         log[k].change != Removed(lease.id) && (log[k].change.Admitted? ==> log[k].change.now <= lease.expiresAt) {
      assert Survives(log, point, name, lease);
    }
  }

  // ----- One release, several pools -----

  ghost predicate InSomePool(log: seq<Commit>, id: string) {
    exists name :: id in Replay(log, name)
  }

  /** Right after a release has committed, the ID is gone everywhere exactly when no pool but the
      one it was removed from held it. */
  lemma ReleasedEverywhereExact(log: seq<Commit>, k: nat)
    requires k < |log| && log[k].change.Removed?
    ensures var id, before := log[k].change.id, log[..k];
            !InSomePool(log[..k + 1], id) <==> forall name | name != log[k].name :: id !in Replay(before, name)
  {
    var id, before, after := log[k].change.id, log[..k], log[..k + 1];
    assert after[..k] == before;
    forall name ensures id in Replay(after, name) <==> name != log[k].name && id in Replay(before, name) {
      assert Replay(after, name) == Apply(Replay(before, name), log[k], name);
    }
    if InSomePool(after, id) {
      var name :| id in Replay(after, name);
      assert name != log[k].name && id in Replay(before, name);
    } else {
      forall name | name != log[k].name ensures id !in Replay(before, name) {
        assert id !in Replay(after, name);
      }
    }
  }

  /** With fresh lease IDs no two pools ever hold the same one, so every release is complete. */
  lemma FreshIdInOnePool(states: seq<State>, i: nat, id: string, m: string, n: string, budget: int)
    requires Run(states, budget) && i < |states| && FreshIds(states[i])
    requires id in PoolOf(states[i], m) && id in PoolOf(states[i], n)
    ensures m == n
  {
    var s := states[i];
    RunKeepsInv(states, i, budget);
    assert PoolOf(s, m) == Replay(s.log, m) && PoolOf(s, n) == Replay(s.log, n);
    StoredWasAdmitted(s.log, m, id);
    StoredWasAdmitted(s.log, n, id);
    var a :| 0 <= a < |s.log| && s.log[a].name == m && s.log[a].change.Admitted?
        && s.log[a].change.lease == Replay(s.log, m)[id];
    var b :| 0 <= b < |s.log| && s.log[b].name == n && s.log[b].change.Admitted?
        && s.log[b].change.lease == Replay(s.log, n)[id];
    FreshAdmittedOnce(s, a, b, budget);
  }
}
