// What the lease store means when one operation runs at a time: a pool is the set of leases in
// one ConfigMap, and every function here is about whole pools.
module LeaseSpec {
  import GoInt
  import Text
  import Domain

  datatype Lease = Lease(
    id: string, nodePool: string, cpu: real, memoryMiB: int, slots: int, ownerWorkflow: string, expiresAt: int)

  type Pool = map<string, Lease>

  /** newLeaseStore: a budget that is not positive becomes 4096. */
  function SlotBudget(configured: int): int {
    if configured <= 0 then 4096 else configured
  }

  function ConfigMapName(nodePool: string): string {
    "cohestra-leases-" + Text.StringOr(nodePool, "default")
  }

  /** The lease that a request asks for; `clock` is the reading its expiry is counted from. */
  function RequestedLease(id: string, nodePool: string, resources: Domain.ResourceShape,
                          owner: string, ttl: int, clock: int): Lease
  {
    Lease(id, nodePool, resources.cpu * resources.taskManagers as real,
          GoInt.Wrap(resources.memoryMiB * resources.taskManagers), resources.Slots(), owner, clock + ttl)
  }

  /** A granted lease holds for as long as was asked for, counted from the reading it was made at. */
  lemma GrantHolds(id: string, pool: string, resources: Domain.ResourceShape, owner: string, ttl: int, clock: int,
                   now: int)
    ensures var lease := RequestedLease(id, pool, resources, owner, ttl, clock);
            id in Unexpired(map[id := lease], now) <==> now <= clock + ttl
  {
  }

  /** It reserves all slots, all memory and all CPU of the task managers asked for, and says for whom
      and where. */
  lemma GrantReserves(id: string, pool: string, resources: Domain.ResourceShape, owner: string, ttl: int, clock: int)
    ensures var lease := RequestedLease(id, pool, resources, owner, ttl, clock);
      && lease.id == id && lease.nodePool == pool && lease.ownerWorkflow == owner
      && lease.cpu == resources.cpu * resources.taskManagers as real
      && Wrapped(lease.slots, resources.taskManagers * resources.slotsPerManager)
      && Wrapped(lease.memoryMiB, resources.memoryMiB * resources.taskManagers)
  {
    hide GoInt.Wrap, Wrapped;
    WrapIsWrapped(resources.memoryMiB * resources.taskManagers);
    WrapIsWrapped(resources.taskManagers * resources.slotsPerManager);
  }

  /** The 64-bit integer that stands for n: n itself where it fits, else one that differs from it by a
      multiple of 2^64. */
  ghost predicate Wrapped(r: int, n: int) {
    && (GoInt.MIN_INT <= n <= GoInt.MAX_INT ==> r == n)
    && (r - n) % GoInt.TWO_64 == 0
  }

  lemma WrapIsWrapped(n: int)
    ensures Wrapped(GoInt.Wrap(n), n)
  {
  }

  /** The names and defaults on the wire. */
  lemma PoolNames()
    ensures ConfigMapName("gpu") == "cohestra-leases-gpu"
    ensures ConfigMapName("") == ConfigMapName(" \t") == "cohestra-leases-default"
    ensures SlotBudget(0) == SlotBudget(-1) == 4096 && SlotBudget(1) == 1
  {
    var gpu, default := "gpu", "default";
    assert gpu[0] == 'g' && default[0] == 'd' && !Text.IsSpace('g') && !Text.IsSpace('d');
  }

  /** The leases that a pruning pass at `now` keeps. */
  function Unexpired(pool: Pool, now: int): Pool {
    map id | id in pool && !(pool[id].expiresAt < now) :: pool[id]
  }

  /** The slots of all leases in the pool, as an unbounded integer. */
  ghost function Slots(pool: Pool): int
    decreases |pool|
  {
    if pool == map[] then 0
    else
      var id :| id in pool;
      assert |pool - {id}| < |pool| by { assert (pool - {id}).Keys == pool.Keys - {id}; }
      pool[id].slots + Slots(pool - {id})
  }

  lemma {:induction false} SlotsRemove(pool: Pool, id: string)
    requires id in pool
    ensures Slots(pool) == pool[id].slots + Slots(pool - {id})
    decreases |pool|
  {
    var first :| first in pool && Slots(pool) == pool[first].slots + Slots(pool - {first});
    if first != id {
      assert (pool - {first}).Keys == pool.Keys - {first};
      assert (pool - {id}).Keys == pool.Keys - {id};
      SlotsRemove(pool - {first}, id);
      SlotsRemove(pool - {id}, first);
      assert pool - {first} - {id} == pool - {id} - {first};
    }
  }

  lemma SlotsAdd(pool: Pool, lease: Lease)
    requires lease.id !in pool
    ensures Slots(pool[lease.id := lease]) == Slots(pool) + lease.slots
  {
    var bigger := pool[lease.id := lease];
    SlotsRemove(bigger, lease.id);
    assert bigger - {lease.id} == pool;
  }

  lemma SlotsPut(pool: Pool, lease: Lease)
    ensures Slots(pool[lease.id := lease])
         == Slots(pool) + lease.slots - if lease.id in pool then pool[lease.id].slots else 0
  {
    if lease.id in pool {
      SlotsRemove(pool, lease.id);
      SlotsAdd(pool - {lease.id}, lease);
      assert (pool - {lease.id})[lease.id := lease] == pool[lease.id := lease];
    } else {
      SlotsAdd(pool, lease);
    }
  }

  /** One turn of a counting loop: the running total stays the wrapped sum. */
  lemma CountOne(counted: Pool, id: string, lease: Lease, total: int)
    requires id !in counted && total == GoInt.Wrap(Slots(counted))
    ensures GoInt.Wrap(total + lease.slots) == GoInt.Wrap(Slots(counted[id := lease]))
  {
    GoInt.WrapSum(Slots(counted), lease.slots);
    SlotsRemove(counted[id := lease], id);
    assert counted[id := lease] - {id} == counted;
  }

  ghost predicate NonNegative(pool: Pool) {
    forall id | id in pool :: pool[id].slots >= 0
  }

  /** A part of a pool of non-negative leases has no more slots than the whole. */
  lemma {:induction false} SlotsMonotone(part: Pool, pool: Pool)
    requires NonNegative(pool)
    requires forall id | id in part :: id in pool && part[id] == pool[id]
    ensures 0 <= Slots(part) <= Slots(pool)
    decreases |pool|
  {
    if pool == map[] {
      assert part == map[];
    } else {
      var id :| id in pool;
      SlotsRemove(pool, id);
      assert (pool - {id}).Keys == pool.Keys - {id};
      if id in part {
        SlotsRemove(part, id);
        SlotsMonotone(part - {id}, pool - {id});
      } else {
        SlotsMonotone(part, pool - {id});
      }
    }
  }

  // ----- One acquire, one release -----

  datatype Verdict = Stored(pool: Pool) | Exhausted(reserved: int)

  /** An acquire that has the pool to itself. The running total wraps like Go's int. */
  ghost function Admit(pool: Pool, lease: Lease, now: int, budget: int): Verdict {
    var kept := Unexpired(pool, now);
    var reserved := GoInt.Wrap(Slots(kept));
    if lease.id !in kept && GoInt.Wrap(reserved + lease.slots) > budget then Exhausted(reserved)
    else Stored(kept[lease.id := lease])
  }

  /** Whether an acquire goes through, when the running total does not overflow: the lease is held
      already, or the unexpired leases leave room for it up to the budget and including it. */
  lemma AdmitsExactly(pool: Pool, lease: Lease, now: int, budget: int)
    requires GoInt.MIN_INT <= Slots(Unexpired(pool, now)) <= GoInt.MAX_INT
    requires GoInt.MIN_INT <= Slots(Unexpired(pool, now)) + lease.slots <= GoInt.MAX_INT
    ensures Admit(pool, lease, now, budget).Stored? <==>
              || (lease.id in pool && pool[lease.id].expiresAt >= now)
              || Slots(Unexpired(pool, now)) + lease.slots <= budget
    ensures Admit(pool, lease, now, budget).Exhausted? ==>
              Admit(pool, lease, now, budget).reserved == Slots(Unexpired(pool, now))
    ensures Admit(pool, lease, now, budget).Stored? ==>
              Admit(pool, lease, now, budget).pool == Unexpired(pool, now)[lease.id := lease]
  {
  }

  /** The precise condition under which an admitted lease leaves the pool within its budget. A
      caller that knows the pool can check it: a stored lease must not be replaced by one that
      does not fit in its place, and a new one must not overflow the running total. */
  ghost predicate Fits(pool: Pool, lease: Lease, now: int, budget: int) {
    var kept := Unexpired(pool, now);
    if lease.id in kept then Slots(kept) - kept[lease.id].slots + lease.slots <= budget
    else Slots(kept) + lease.slots <= GoInt.MAX_INT
  }

  lemma AdmitWithinBudget(pool: Pool, lease: Lease, now: int, budget: int)
    requires 0 <= budget <= GoInt.MAX_INT
    requires Admit(pool, lease, now, budget).Stored?
    ensures Slots(Admit(pool, lease, now, budget).pool) <= budget <==> Fits(pool, lease, now, budget)
  {
    var kept := Unexpired(pool, now);
    SlotsPut(kept, lease);
    GoInt.WrapSum(Slots(kept), lease.slots);
  }

  /** Re-acquiring a stored lease with more slots is never refused, so it can exceed the budget. */
  lemma ReacquireCanExceedBudget()
    ensures exists pool: Pool, lease: Lease, now: int, budget: int ::
              && NonNegative(pool) && Slots(pool) <= budget && 0 <= lease.slots <= GoInt.MAX_INT
              && Admit(pool, lease, now, budget).Stored?
              && Slots(Admit(pool, lease, now, budget).pool) > budget
  {
    var small := Lease("a", "p", 1.0, 1, 5, "w", 100);
    var large := small.(slots := 50);
    var pool: Pool := map["a" := small];
    var start: Pool := map[];
    SlotsAdd(start, small);
    assert start["a" := small] == pool;
    assert Unexpired(pool, 0) == pool;
    SlotsPut(pool, large);
    assert Admit(pool, large, 0, 10) == Stored(pool["a" := large]);
    assert NonNegative(pool) && Slots(pool) <= 10;
  }

  /** A request so large that the running total overflows is admitted. */
  lemma OverflowingRequestIsAdmitted(pool: Pool, lease: Lease, now: int, budget: int)
    requires 0 <= budget <= GoInt.MAX_INT
    requires NonNegative(pool) && Slots(pool) <= budget
    requires lease.id !in pool && 0 <= lease.slots <= GoInt.MAX_INT
    requires Slots(Unexpired(pool, now)) + lease.slots > GoInt.MAX_INT
    ensures Admit(pool, lease, now, budget).Stored?
    ensures Slots(Admit(pool, lease, now, budget).pool) > budget
  {
    var kept := Unexpired(pool, now);
    SlotsMonotone(kept, pool);
    SlotsPut(kept, lease);
    GoInt.WrapCongruent(Slots(kept) + lease.slots, Slots(kept) + lease.slots - GoInt.TWO_64);
  }
}
