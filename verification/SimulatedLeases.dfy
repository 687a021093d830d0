// The in-process lease map of the simulated backend, and the proof that the ConfigMap store is
// a refinement of it although the two prune at different times.
module SimulatedLeases {
  import opened LeaseSpec
  import opened LeaseProtocol
  import LeaseTheorems
  import opened Wrappers
  import Domain
  import GoInt
  import Text

  const SIMULATED_BUDGET: int := 4096

  function InPool(store: Pool, nodePool: string): Pool {
    map id | id in store && store[id].nodePool == nodePool :: store[id]
  }

  /** Whether the single map grants a lease, after it has dropped everything that expired. */
  ghost predicate Grants(store: Pool, lease: Lease, now: int) {
    GoInt.Wrap(GoInt.Wrap(Slots(InPool(Unexpired(store, now), lease.nodePool))) + lease.slots) <= SIMULATED_BUDGET
  }

  /** The map afterwards; a refused acquire has pruned it all the same. */
  ghost function AfterAcquire(store: Pool, lease: Lease, now: int): Pool {
    var kept := Unexpired(store, now);
    if Grants(store, lease, now) then kept[lease.id := lease] else kept
  }

  /** Up to the budget and including it, when the running total does not overflow. */
  lemma GrantsExactly(store: Pool, lease: Lease, now: int)
    requires var reserved := Slots(InPool(Unexpired(store, now), lease.nodePool));
             && GoInt.MIN_INT <= reserved <= GoInt.MAX_INT
             && GoInt.MIN_INT <= reserved + lease.slots <= GoInt.MAX_INT
    ensures Grants(store, lease, now) <==>
              Slots(InPool(Unexpired(store, now), lease.nodePool)) + lease.slots <= 4096
  {
  }

  class SimulatedActivities {
    var leases: Pool

    constructor ()
      ensures leases == map[]
    {
      leases := map[];
    }

    /** The first loop: drop what has expired. */
    method Prune(now: int)
      modifies this
      ensures leases == Unexpired(old(leases), now)
    {
      var todo := leases.Keys;
      while todo != {}
        invariant todo <= old(leases).Keys
        invariant leases == map id | id in old(leases) && (id in todo || !(old(leases)[id].expiresAt < now)) ::
            old(leases)[id]
        decreases todo
      {
        var id :| id in todo;
        todo := todo - {id};
        if leases[id].expiresAt < now {
          leases := leases - {id};
        }
      }
    }

    /** The second loop: the slots reserved in one pool. */
    method ReservedSlots(nodePool: string) returns (reserved: int)
      ensures reserved == GoInt.Wrap(Slots(InPool(leases, nodePool)))
    {
      reserved := 0;
      var todo := leases.Keys;
      ghost var counted: Pool := map[];
      while todo != {}
        invariant todo <= leases.Keys
        invariant counted == map id | id in leases && id !in todo && leases[id].nodePool == nodePool :: leases[id]
        invariant reserved == GoInt.Wrap(Slots(counted))
        decreases todo
      {
        var id :| id in todo;
        todo := todo - {id};
        if leases[id].nodePool == nodePool {
          CountOne(counted, id, leases[id], reserved);
          reserved := GoInt.Wrap(reserved + leases[id].slots);
          counted := counted[id := leases[id]];
        }
      }
      assert counted == InPool(leases, nodePool);
    }

    method AcquireCapacityLease(id: string, nodePool: string, resources: Domain.ResourceShape, owner: string, ttl: int,
                                now: int)
      returns (r: Option<Lease>)
      modifies this
      ensures var lease := RequestedLease(id, nodePool, resources, owner, ttl, now);
              && r == (if Grants(old(leases), lease, now) then Some(lease) else None)
              && leases == AfterAcquire(old(leases), lease, now)
      ensures r.Some? ==> r.value.expiresAt == now + ttl && r.value.slots == resources.Slots()
    {
      Prune(now);
      var reservedSlots := ReservedSlots(nodePool);
      if GoInt.Wrap(reservedSlots + resources.Slots()) > SIMULATED_BUDGET {
        return None;
      }
      var lease := RequestedLease(id, nodePool, resources, owner, ttl, now);
      leases := leases[id := lease];
      r := Some(lease);
    }

    method ReleaseCapacityLease(leaseID: string)
      modifies this
      ensures leases == old(leases) - {leaseID}
    {
      leases := leases - {leaseID};
    }
  }

  // ----- Serial runs of both stores -----

  datatype Op = AcquireOp(lease: Lease, now: int) | ReleaseOp(id: string)

  ghost function SingleMap(ops: seq<Op>): Pool {
    if ops == [] then map[]
    else
      var store := SingleMap(ops[..|ops| - 1]);
      match ops[|ops| - 1]
      case AcquireOp(lease, now) => AfterAcquire(store, lease, now)
      case ReleaseOp(id) => store - {id}
  }

  ghost predicate Accepts(log: seq<Commit>, lease: Lease, now: int) {
    Admit(Replay(log, ConfigMapName(lease.nodePool)), lease, now, SIMULATED_BUDGET).Stored?
  }

  /** What the per-pool store commits when the operations come one at a time. */
  ghost function PerPool(ops: seq<Op>): seq<Commit> {
    if ops == [] then []
    else
      var log := PerPool(ops[..|ops| - 1]);
      match ops[|ops| - 1]
      case AcquireOp(lease, now) =>
        if Accepts(log, lease, now) then log + [Commit(|ops|, ConfigMapName(lease.nodePool), Admitted(lease, now))]
            else log
      case ReleaseOp(id) =>
        if exists name :: id in Replay(log, name) then
          var name :| id in Replay(log, name);
          log + [Commit(|ops|, name, Removed(id))]
        else log
  }

  predicate UsedBefore(ops: seq<Op>, id: string) {
    exists i :: 0 <= i < |ops| && ops[i].AcquireOp? && ops[i].lease.id == id
  }

  /** Fresh lease IDs, non-blank pool names, and a clock that never goes back. */
  predicate WellTimed(ops: seq<Op>) {
    && (forall i | 0 <= i < |ops| && ops[i].AcquireOp? ::
          !UsedBefore(ops[..i], ops[i].lease.id) && !Text.IsBlank(ops[i].lease.nodePool))
    && (forall i, j | 0 <= i < j < |ops| && ops[i].AcquireOp? && ops[j].AcquireOp? :: ops[i].now <= ops[j].now)
  }

  /** The reading of the last acquire's clock has passed t at most. */
  predicate NotBefore(ops: seq<Op>, t: int) {
    forall i | 0 <= i < |ops| && ops[i].AcquireOp? :: ops[i].now <= t
  }

  ghost predicate Holds(pool: Pool, lease: Lease) {
    lease.id in pool && pool[lease.id] == lease
  }

  /** The two stores hold the same leases among those not expired at t. */
  ghost predicate AgreeFrom(store: Pool, log: seq<Commit>, t: int) {
    forall lease: Lease | !(lease.expiresAt < t) ::
      Holds(store, lease) <==> Holds(Replay(log, ConfigMapName(lease.nodePool)), lease)
  }

  /** Every lease sits under its own ID, in the pool it names, in no other, and was acquired. */
  ghost predicate Tidy(store: Pool, log: seq<Commit>, ops: seq<Op>) {
    && (forall id | id in store :: store[id].id == id && UsedBefore(ops, id) && !Text.IsBlank(store[id].nodePool))
    && (forall name, id :: TidyAt(Replay(log, name), ops, name, id))
    && (forall id :: OnePool(log, id))
  }

  predicate TidyAt(pool: Pool, ops: seq<Op>, name: string, id: string) {
    id in pool ==>
      && pool[id].id == id && ConfigMapName(pool[id].nodePool) == name
      && UsedBefore(ops, id) && !Text.IsBlank(pool[id].nodePool)
  }

  /** An ID is in one pool at most. */
  ghost predicate OnePool(log: seq<Commit>, id: string) {
    forall m, n :: id in Replay(log, m) && id in Replay(log, n) ==> m == n
  }

  lemma PoolNamesDiffer(a: string, b: string)
    requires !Text.IsBlank(a) && !Text.IsBlank(b)
    ensures ConfigMapName(a) == ConfigMapName(b) <==> a == b
  {
    var prefix := "cohestra-leases-";
    assert (prefix + a)[|prefix|..] == a && (prefix + b)[|prefix|..] == b;
  }

  /** The leases one store counts against a new request are exactly those the other counts. */
  lemma SamePoolSeen(store: Pool, log: seq<Commit>, ops: seq<Op>, nodePool: string, now: int)
    requires Tidy(store, log, ops) && AgreeFrom(store, log, now) && !Text.IsBlank(nodePool)
    ensures Unexpired(Replay(log, ConfigMapName(nodePool)), now) == InPool(Unexpired(store, now), nodePool)
  {
    var name := ConfigMapName(nodePool);
    var seen, counted := Unexpired(Replay(log, name), now), InPool(Unexpired(store, now), nodePool);
    forall id | id in seen ensures id in counted && counted[id] == seen[id] {
      var lease := Replay(log, name)[id];
      assert TidyAt(Replay(log, name), ops, name, id);
      PoolNamesDiffer(lease.nodePool, nodePool);
      assert Holds(Replay(log, ConfigMapName(lease.nodePool)), lease);
    }
    forall id | id in counted ensures id in seen && seen[id] == counted[id] {
      assert Holds(store, store[id]);
    }
  }

  /** Both stores answer a fresh request alike. */
  lemma SameAnswer(store: Pool, log: seq<Commit>, ops: seq<Op>, lease: Lease, now: int)
    requires Tidy(store, log, ops) && AgreeFrom(store, log, now)
    requires !UsedBefore(ops, lease.id) && !Text.IsBlank(lease.nodePool)
    ensures Accepts(log, lease, now) <==> Grants(store, lease, now)
  {
    SamePoolSeen(store, log, ops, lease.nodePool, now);
  }

  lemma UsedBeforeGrows(ops: seq<Op>, op: Op, id: string)
    ensures UsedBefore(ops + [op], id) <==> UsedBefore(ops, id) || (op.AcquireOp? && op.lease.id == id)
  {
    var ops' := ops + [op];
    if UsedBefore(ops, id) {
      var i :| 0 <= i < |ops| && ops[i].AcquireOp? && ops[i].lease.id == id;
      assert ops'[i] == ops[i];
    }
    if op.AcquireOp? && op.lease.id == id {
      assert ops'[|ops|] == op;
    }
  }

  lemma AgreeLater(store: Pool, log: seq<Commit>, t: int, t': int)
    requires AgreeFrom(store, log, t) && t <= t'
    ensures AgreeFrom(store, log, t')
  {
  }

  /** How the newly committed acquire shows in the pools, when its ID is in none of them. */
  lemma AcquireReplayed(log: seq<Commit>, lease: Lease, now: int, call: nat, n: string)
    ensures var name := ConfigMapName(lease.nodePool);
            Replay(log + [Commit(call, name, Admitted(lease, now))], n)
            == if n == name then Unexpired(Replay(log, n), now)[lease.id := lease] else Replay(log, n)
  {
    PrefixKept(log, Commit(call, ConfigMapName(lease.nodePool), Admitted(lease, now)));
  }

  lemma GrantKeepsTidy(store: Pool, log: seq<Commit>, ops: seq<Op>, lease: Lease, now: int, call: nat)
    requires Tidy(store, log, ops)
    requires !UsedBefore(ops, lease.id) && !Text.IsBlank(lease.nodePool)
    ensures Tidy(Unexpired(store, now)[lease.id := lease],
                 log + [Commit(call, ConfigMapName(lease.nodePool), Admitted(lease, now))],
                 ops + [AcquireOp(lease, now)])
  {
    var op, name := AcquireOp(lease, now), ConfigMapName(lease.nodePool);
    var log' := log + [Commit(call, name, Admitted(lease, now))];
    forall id ensures UsedBefore(ops + [op], id) <==> UsedBefore(ops, id) || lease.id == id {
      UsedBeforeGrows(ops, op, id);
    }
    forall n, id ensures TidyAt(Replay(log', n), ops + [op], n, id) {
      assert TidyAt(Replay(log, n), ops, n, id);
      AcquireReplayed(log, lease, now, call, n);
    }
    forall id ensures OnePool(log', id) {
      assert OnePool(log, id);
      forall n ensures id in Replay(log', n) ==> if id == lease.id then n == name else id in Replay(log, n) {
        assert TidyAt(Replay(log, n), ops, n, id);
        AcquireReplayed(log, lease, now, call, n);
      }
    }
  }

  lemma GrantKeepsAgreement(store: Pool, log: seq<Commit>, ops: seq<Op>, lease: Lease, now: int, call: nat)
    requires Tidy(store, log, ops) && AgreeFrom(store, log, now)
    requires !UsedBefore(ops, lease.id) && !Text.IsBlank(lease.nodePool)
    ensures AgreeFrom(Unexpired(store, now)[lease.id := lease],
        log + [Commit(call, ConfigMapName(lease.nodePool), Admitted(lease, now))], now)
  {
    var store' := Unexpired(store, now)[lease.id := lease];
    var log' := log + [Commit(call, ConfigMapName(lease.nodePool), Admitted(lease, now))];
    forall other: Lease | !(other.expiresAt < now)
      ensures Holds(store', other) <==> Holds(Replay(log', ConfigMapName(other.nodePool)), other)
    {
      var n := ConfigMapName(other.nodePool);
      AcquireReplayed(log, lease, now, call, n);
      assert TidyAt(Replay(log, n), ops, n, lease.id);
      assert Holds(store, other) <==> Holds(Replay(log, n), other);
    }
  }

  lemma RefusalKeepsAgreement(store: Pool, log: seq<Commit>, ops: seq<Op>, lease: Lease, now: int)
    requires Tidy(store, log, ops) && AgreeFrom(store, log, now)
    ensures Tidy(Unexpired(store, now), log, ops + [AcquireOp(lease, now)])
    ensures AgreeFrom(Unexpired(store, now), log, now)
  {
    var op := AcquireOp(lease, now);
    forall id ensures UsedBefore(ops, id) ==> UsedBefore(ops + [op], id) { UsedBeforeGrows(ops, op, id); }
    forall n, id ensures TidyAt(Replay(log, n), ops + [op], n, id) {
      assert TidyAt(Replay(log, n), ops, n, id);
    }
    forall other: Lease | !(other.expiresAt < now)
      ensures Holds(Unexpired(store, now), other) <==> Holds(Replay(log, ConfigMapName(other.nodePool)), other)
    {
      assert Holds(store, other) <==> Holds(Replay(log, ConfigMapName(other.nodePool)), other);
    }
  }

  lemma AcquireKeepsAgreement(store: Pool, log: seq<Commit>, ops: seq<Op>, lease: Lease, now: int, call: nat)
    requires Tidy(store, log, ops) && AgreeFrom(store, log, now)
    requires !UsedBefore(ops, lease.id) && !Text.IsBlank(lease.nodePool)
    ensures var store' := AfterAcquire(store, lease, now);
            var commit := Commit(call, ConfigMapName(lease.nodePool), Admitted(lease, now));
            var log' := if Accepts(log, lease, now) then log + [commit] else log;
            Tidy(store', log', ops + [AcquireOp(lease, now)]) && AgreeFrom(store', log', now)
  {
    SameAnswer(store, log, ops, lease, now);
    if Accepts(log, lease, now) {
      GrantKeepsTidy(store, log, ops, lease, now, call);
      GrantKeepsAgreement(store, log, ops, lease, now, call);
    } else {
      RefusalKeepsAgreement(store, log, ops, lease, now);
    }
  }

  lemma ReleaseKeepsAgreement(store: Pool, log: seq<Commit>, ops: seq<Op>, id: string, name: string, call: nat, t: int)
    requires Tidy(store, log, ops) && AgreeFrom(store, log, t)
    requires id in Replay(log, name)
    ensures Tidy(store - {id}, log + [Commit(call, name, Removed(id))], ops + [ReleaseOp(id)])
    ensures AgreeFrom(store - {id}, log + [Commit(call, name, Removed(id))], t)
  {
    var op, commit := ReleaseOp(id), Commit(call, name, Removed(id));
    PrefixKept(log, commit);
    forall i ensures UsedBefore(ops + [op], i) <==> UsedBefore(ops, i) { UsedBeforeGrows(ops, op, i); }
    var log' := log + [commit];
    assert OnePool(log, id);
    forall n, i ensures TidyAt(Replay(log', n), ops + [op], n, i) {
      assert TidyAt(Replay(log, n), ops, n, i);
    }
    forall i ensures OnePool(log', i) {
      assert OnePool(log, i);
      assert forall n :: i in Replay(log', n) ==> i in Replay(log, n);
    }
    forall other: Lease | !(other.expiresAt < t)
      ensures Holds(store - {id}, other) <==> Holds(Replay(log', ConfigMapName(other.nodePool)), other)
    {
      assert Holds(store, other) <==> Holds(Replay(log, ConfigMapName(other.nodePool)), other);
    }
  }

  lemma IdleReleaseKeepsAgreement(store: Pool, log: seq<Commit>, ops: seq<Op>, id: string, t: int)
    requires Tidy(store, log, ops) && AgreeFrom(store, log, t)
    requires forall name :: id !in Replay(log, name)
    ensures Tidy(store - {id}, log, ops + [ReleaseOp(id)]) && AgreeFrom(store - {id}, log, t)
  {
    forall i ensures UsedBefore(ops + [ReleaseOp(id)], i) <==> UsedBefore(ops, i) {
      UsedBeforeGrows(ops, ReleaseOp(id), i);
    }
    forall n, i ensures TidyAt(Replay(log, n), ops + [ReleaseOp(id)], n, i) {
      assert TidyAt(Replay(log, n), ops, n, i);
    }
  }

  lemma WellTimedInit(ops: seq<Op>)
    requires WellTimed(ops) && ops != []
    ensures WellTimed(ops[..|ops| - 1])
    ensures ops[|ops| - 1].AcquireOp? ==>
              NotBefore(ops[..|ops| - 1], ops[|ops| - 1].now) && !UsedBefore(ops[..|ops| - 1], ops[|ops| - 1].lease.id)
  {
    var init := ops[..|ops| - 1];
    forall i | 0 <= i < |init| ensures init[..i] == ops[..i] { }
  }

  /** A serial run keeps the two stores in agreement about every lease not expired by its clock. */
  lemma {:induction false} SerialRunsAgree(ops: seq<Op>, t: int)
    requires WellTimed(ops) && NotBefore(ops, t)
    ensures Tidy(SingleMap(ops), PerPool(ops), ops) && AgreeFrom(SingleMap(ops), PerPool(ops), t)
  {
    if ops != [] {
      var init, last := ops[..|ops| - 1], ops[|ops| - 1];
      assert ops == init + [last];
      WellTimedInit(ops);
      var store, log := SingleMap(init), PerPool(init);
      match last
      case AcquireOp(lease, now) =>
        SerialRunsAgree(init, now);
        AcquireKeepsAgreement(store, log, init, lease, now, |ops|);
        AgreeLater(SingleMap(ops), PerPool(ops), now, t);
      case ReleaseOp(id) =>
        SerialRunsAgree(init, t);
        if exists name :: id in Replay(log, name) {
          var commit := PerPool(ops)[|log|];
          ReleaseKeepsAgreement(store, log, init, id, commit.name, |ops|, t);
        } else {
          IdleReleaseKeepsAgreement(store, log, init, id, t);
        }
    }
  }

  /** The refinement: over any serial run with fresh IDs, named pools and a clock that never goes
      back, the per-pool store accepts exactly the acquires the single map accepts. */
  lemma SerialRunsAcceptAlike(ops: seq<Op>, i: nat)
    requires WellTimed(ops) && i < |ops| && ops[i].AcquireOp?
    ensures Accepts(PerPool(ops[..i]), ops[i].lease, ops[i].now) <==>
        Grants(SingleMap(ops[..i]), ops[i].lease, ops[i].now)
  {
    var init := ops[..i];
    assert WellTimed(init) by {
      forall j | 0 <= j < i ensures init[..j] == ops[..j] { }
    }
    SerialRunsAgree(init, ops[i].now);
    SameAnswer(SingleMap(init), PerPool(init), init, ops[i].lease, ops[i].now);
  }

  // ----- Concurrent runs -----

  function OpsOf(log: seq<Commit>): seq<Op> {
    seq(|log|, i requires 0 <= i < |log| =>
      match log[i].change
      case Admitted(lease, now) => AcquireOp(lease, now)
      case Removed(id) => ReleaseOp(id))
  }

  predicate NamedByLease(log: seq<Commit>) {
    forall i | 0 <= i < |log| && log[i].change.Admitted? :: log[i].name == ConfigMapName(log[i].change.lease.nodePool)
  }

  lemma {:induction false} LogAgreesWithSingleMap(log: seq<Commit>, t: int)
    requires Serial(log, SIMULATED_BUDGET) && NamedByLease(log)
    requires WellTimed(OpsOf(log)) && NotBefore(OpsOf(log), t)
    ensures Tidy(SingleMap(OpsOf(log)), log, OpsOf(log)) && AgreeFrom(SingleMap(OpsOf(log)), log, t)
  {
    if log != [] {
      var init, last, ops := log[..|log| - 1], log[|log| - 1], OpsOf(log);
      assert OpsOf(init) == ops[..|ops| - 1] && log == init + [last];
      assert ops == OpsOf(init) + [ops[|ops| - 1]];
      WellTimedInit(ops);
      LeaseTheorems.SerialPrefix(log, |log| - 1, SIMULATED_BUDGET);
      assert SerialStep(log, |log| - 1, SIMULATED_BUDGET);
      var store := SingleMap(OpsOf(init));
      match last.change
      case Admitted(lease, now) =>
        LogAgreesWithSingleMap(init, now);
        AcquireKeepsAgreement(store, init, OpsOf(init), lease, now, last.call);
        AgreeLater(SingleMap(ops), log, now, t);
      case Removed(id) =>
        LogAgreesWithSingleMap(init, t);
        ReleaseKeepsAgreement(store, init, OpsOf(init), id, last.name, last.call, t);
    }
  }

  lemma NewCallsNamed(s: State, c: nat, a: Action, budget: int)
    requires Enabled(s, c, a)
    ensures forall d | d in Next(s, c, a, budget).calls && d !in s.calls ::
      var request := Next(s, c, a, budget).calls[d].request;
      request.Acquire? ==> request.name == ConfigMapName(request.lease.nodePool)
  {
    hide Admit, Replay, ConfigMapName, Held;
  }

  /** Every call's ConfigMap is the one its lease's pool names. */
  lemma {:induction false} CallsNamedByLease(states: seq<State>, i: nat, budget: int)
    requires Run(states, budget) && i < |states|
    ensures forall c | c in states[i].calls && states[i].calls[c].request.Acquire? ::
              states[i].calls[c].request.name == ConfigMapName(states[i].calls[c].request.lease.nodePool)
  {
    if i > 0 {
      CallsNamedByLease(states, i - 1, budget);
      assert StepAt(states, i, budget);
      var c: nat, a: Action :| Enabled(states[i - 1], c, a) && states[i] == Next(states[i - 1], c, a, budget);
      hide Next, Enabled, Admit, Replay;
      LeaseTheorems.StepIsLater(states[i - 1], c, a, budget);
      NewCallsNamed(states[i - 1], c, a, budget);
      forall d | d in states[i].calls && states[i].calls[d].request.Acquire?
        ensures states[i].calls[d].request.name == ConfigMapName(states[i].calls[d].request.lease.nodePool)
      {
        if d in states[i - 1].calls {
          assert LeaseTheorems.SameCall(states[i - 1].calls[d], states[i].calls[d]);
        }
      }
    }
  }

  /** Under any interleaving whose commits have fresh IDs, named pools and clocks that agree with
      the commit order, the ConfigMaps hold the same unexpired leases as the single map after the
      committed operations. */
  lemma ConcurrentRefinesSingleMap(states: seq<State>, i: nat, t: int, lease: Lease)
    requires Run(states, SIMULATED_BUDGET) && i < |states|
    requires WellTimed(OpsOf(states[i].log)) && NotBefore(OpsOf(states[i].log), t)
    requires !(lease.expiresAt < t)
    ensures Holds(SingleMap(OpsOf(states[i].log)), lease) <==>
        Holds(PoolOf(states[i], ConfigMapName(lease.nodePool)), lease)
  {
    var log := states[i].log;
    LeaseTheorems.Serializable(states, i, SIMULATED_BUDGET);
    CallsNamedByLease(states, i, SIMULATED_BUDGET);
    assert NamedByLease(log) by {
      forall k | 0 <= k < |log| && log[k].change.Admitted?
        ensures log[k].name == ConfigMapName(log[k].change.lease.nodePool)
      {
        assert MadeBy(states[i], log[k]);
      }
    }
    LogAgreesWithSingleMap(log, t);
    assert PoolOf(states[i], ConfigMapName(lease.nodePool)) == Replay(log, ConfigMapName(lease.nodePool));
  }
}
