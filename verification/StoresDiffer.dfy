// Serial runs in which the ConfigMap store and the single map part: each breaks one of the
// assumptions under which they agree.
module StoresDiffer {
  import opened LeaseSpec
  import opened LeaseProtocol
  import opened SimulatedLeases
  import GoInt
  import LeaseRuns
  import Text

  function Big(id: string, nodePool: string, expiresAt: int): Lease {
    Lease(id, nodePool, 0.0, 0, 4000, "worker", expiresAt)
  }

  function First(lease: Lease): seq<Op> {
    [AcquireOp(lease, 0)]
  }

  lemma OneLease(lease: Lease, now: int)
    requires lease.expiresAt >= now
    ensures var pool: Pool := map[lease.id := lease];
            Unexpired(pool, now) == pool && Slots(pool) == lease.slots && InPool(pool, lease.nodePool) == pool
  {
    var empty: Pool := map[];
    SlotsAdd(empty, lease);
    assert Slots(empty) == 0;
  }

  lemma NoLease(now: int, nodePool: string)
    ensures var empty: Pool := map[];
            Unexpired(empty, now) == empty && Slots(empty) == 0 && InPool(empty, nodePool) == empty
  {
  }

  /** Both stores after one acquire. */
  lemma AfterFirst(lease: Lease)
    requires 0 <= lease.expiresAt && 0 < lease.slots <= SIMULATED_BUDGET
    ensures SingleMap(First(lease)) == map[lease.id := lease]
    ensures PerPool(First(lease)) == [Commit(1, ConfigMapName(lease.nodePool), Admitted(lease, 0))]
    ensures Replay(PerPool(First(lease)), ConfigMapName(lease.nodePool)) == map[lease.id := lease]
  {
    var empty: Pool := map[];
    var ops, name := First(lease), ConfigMapName(lease.nodePool);
    NoLease(0, lease.nodePool);
    assert ops[..0] == [] && SingleMap([]) == empty && PerPool([]) == [];
    assert Replay([], name) == empty;
    assert Grants(empty, lease, 0) && Accepts([], lease, 0);
    hide Grants, Accepts, Admit, ConfigMapName, InPool;
    var log := PerPool(ops);
    assert log == [] + [Commit(1, name, Admitted(lease, 0))];
    PrefixKept([], Commit(1, name, Admitted(lease, 0)));
  }

  lemma BlankIsDefault()
    ensures ConfigMapName("") == ConfigMapName("default")
  {
    var d := "default";
    assert d[0] == 'd' && !Text.IsSpace('d');
    assert Text.StringOr("", "default") == d == Text.StringOr(d, "default");
  }

  /** A pool without a name is the pool "default" to one store and a pool of its own to the other. */
  lemma BlankNamesPart()
    ensures var ops, lease := First(Big("a", "", 100)), Big("b", "default", 100);
            Grants(SingleMap(ops), lease, 0) && !Accepts(PerPool(ops), lease, 0)
  {
    var a, b := Big("a", "", 100), Big("b", "default", 100);
    AfterFirst(a);
    OneLease(a, 0);
    NoLease(0, "default");
    BlankIsDefault();
    var seen: Pool := map["a" := a];
    assert InPool(seen, "default") == map[];
    hide SingleMap, PerPool, Replay, ConfigMapName, InPool, Grants, Accepts, Unexpired;
    GrantedByEmptyPool(SingleMap(First(a)), b, 0);
    RefusedByFullPool(PerPool(First(a)), a, b, 0);
  }

  /** An ID that is in use counts as new to one store and as held to the other. */
  lemma ReusedIDsPart()
    ensures var lease := Big("a", "p", 100);
            !Grants(SingleMap(First(lease)), lease, 0) && Accepts(PerPool(First(lease)), lease, 0)
  {
    var a := Big("a", "p", 100);
    AfterFirst(a);
    OneLease(a, 0);
    hide SingleMap, PerPool, Replay, ConfigMapName, InPool;
  }

  function BackInTime(): seq<Op> {
    First(Big("a", "p", 5)) + [AcquireOp(Big("b", "q", 100), 10)]
  }

  lemma SingleMapPruned()
    ensures SingleMap(BackInTime()) == map["b" := Big("b", "q", 100)]
  {
    var a, b := Big("a", "p", 5), Big("b", "q", 100);
    var one, empty: Pool := map["a" := a], map[];
    assert BackInTime()[..1] == First(a) && BackInTime()[1] == AcquireOp(b, 10);
    AfterFirst(a);
    NoLease(10, "q");
    assert Unexpired(one, 10) == empty;
    assert SingleMap(BackInTime()) == AfterAcquire(one, b, 10);
    hide SingleMap, Unexpired, InPool;
  }

  lemma PerPoolKept()
    ensures Replay(PerPool(BackInTime()), ConfigMapName("p")) == map["a" := Big("a", "p", 5)]
  {
    var a, b := Big("a", "p", 5), Big("b", "q", 100);
    AfterFirst(a);
    LeaseRuns.Letters();
    assert BackInTime()[..1] == First(a) && BackInTime()[1] == AcquireOp(b, 10);
    var log, commit := PerPool(First(a)), Commit(2, ConfigMapName("q"), Admitted(b, 10));
    hide ConfigMapName, Accepts, Replay;
    assert PerPool(BackInTime()) == if Accepts(log, b, 10) then log + [commit] else log;
    hide PerPool;
    PrefixKept(log, commit);
  }

  lemma GrantedByEmptyPool(store: Pool, lease: Lease, now: int)
    requires InPool(Unexpired(store, now), lease.nodePool) == map[] && lease.slots == 4000
    ensures Grants(store, lease, now)
  {
    NoLease(now, lease.nodePool);
  }

  lemma RefusedByFullPool(log: seq<Commit>, held: Lease, lease: Lease, now: int)
    requires Replay(log, ConfigMapName(lease.nodePool)) == map[held.id := held]
    requires held.expiresAt >= now && held.id != lease.id && held.slots == lease.slots == 4000
    ensures !Accepts(log, lease, now)
  {
    OneLease(held, now);
    hide Replay, Unexpired, ConfigMapName;
  }

  /** One store prunes all pools at every acquire, the other only the pool it acquires from. */
  lemma ClocksGoingBackPart()
    ensures var lease := Big("c", "p", 100);
            Grants(SingleMap(BackInTime()), lease, 0) && !Accepts(PerPool(BackInTime()), lease, 0)
  {
    hide *;
    var a, b, c := Big("a", "p", 5), Big("b", "q", 100), Big("c", "p", 100);
    BigIs("a", "p", 5);
    BigIs("c", "p", 100);
    SingleMapPruned();
    PerPoolKept();
    OtherPoolEmpty();
    GrantedByEmptyPool(SingleMap(BackInTime()), c, 0);
    RefusedByFullPool(PerPool(BackInTime()), a, c, 0);
  }

  lemma BigIs(id: string, nodePool: string, expiresAt: int)
    ensures Big(id, nodePool, expiresAt) == Lease(id, nodePool, 0.0, 0, 4000, "worker", expiresAt)
  {
  }

  lemma OtherPoolEmpty()
    ensures InPool(Unexpired(map["b" := Big("b", "q", 100)], 0), "p") == map[]
  {
  }
}
