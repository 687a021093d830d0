// Runs of the lease protocol, built call by call: an operation that runs alone always goes through,
// so a history that one worker after the other can make is the history of a run.
module LeaseRuns {
  import opened LeaseSpec
  import opened LeaseProtocol
  import opened LeaseTheorems
  import Text
  import Domain

  function Last(states: seq<State>): State
    requires states != []
  {
    states[|states| - 1]
  }

  lemma Extend(states: seq<State>, c: nat, a: Action, budget: int) returns (longer: seq<State>)
    requires Run(states, budget) && Enabled(Last(states), c, a)
    ensures Run(longer, budget) && longer == states + [Next(Last(states), c, a, budget)]
  {
    longer := states + [Next(Last(states), c, a, budget)];
    hide Next, Enabled;
    forall i | 0 < i < |longer| ensures StepAt(longer, i, budget) {
      if i < |states| {
        assert StepAt(states, i, budget);
      } else {
        assert longer[i - 1] == Last(states);
      }
    }
  }

  /** The call has run alone from s to s', and added this commit. */
  ghost predicate Added(s: State, s': State, c: nat, commit: Commit) {
    && s'.log == s.log + [commit]
    && c in s'.calls && s'.calls[c].phase.Finished? && s'.calls == s.calls[c := s'.calls[c]]
  }

  /** An acquire that runs alone loads its pool, creating it if need be. */
  lemma LoadAlone(states: seq<State>, c: nat, now: int, budget: int) returns (longer: seq<State>)
    requires Run(states, budget) && c in Last(states).calls
    requires Last(states).calls[c].phase.Getting? && Last(states).calls[c].request.Acquire?
    ensures Run(longer, budget) && c in Last(longer).calls
    ensures var s, s', name := Last(states), Last(longer), Last(states).calls[c].request.name;
            && s'.log == s.log && name in s'.cms
            && s'.calls == s.calls[c := s.calls[c].(phase := Loaded(s'.cms[name], |s.log|))]
            && s'.cms[name].data == PoolOf(s, name)
  {
    longer := Extend(states, c, Proceed(now, ""), budget);
    if Last(longer).calls[c].phase.Creating? {
      longer := Extend(longer, c, Proceed(now, ""), budget);
    }
  }

  lemma AcquireAlone(states: seq<State>, c: nat, id: string, nodePool: string, resources: Domain.ResourceShape,
                     owner: string, ttl: int, clock: int, now: int, budget: int)
    returns (longer: seq<State>)
    requires Run(states, budget) && c !in Last(states).calls
    requires var pool := Text.StringOr(nodePool, "default");
             var lease := RequestedLease(id, pool, resources, owner, ttl, clock);
             Admit(PoolOf(Last(states), ConfigMapName(pool)), lease, now, budget).Stored?
    ensures Run(longer, budget)
    ensures var pool := Text.StringOr(nodePool, "default");
            Added(Last(states), Last(longer), c,
                  Commit(c, ConfigMapName(pool), Admitted(RequestedLease(id, pool, resources, owner, ttl, clock), now)))
  {
    hide Admit, RequestedLease, ConfigMapName, Text.StringOr, Run;
    longer := Extend(states, c, StartAcquire(id, nodePool, resources, owner, ttl, clock), budget);
    longer := LoadAlone(longer, c, now, budget);
    longer := Extend(longer, c, Proceed(now, ""), budget);
    longer := Extend(longer, c, Proceed(now, ""), budget);
  }

  lemma ReleaseAlone(states: seq<State>, c: nat, id: string, name: string, budget: int) returns (longer: seq<State>)
    requires Run(states, budget) && c !in Last(states).calls && id in PoolOf(Last(states), name)
    ensures Run(longer, budget)
    ensures Added(Last(states), Last(longer), c, Commit(c, name, Removed(id))) && c in Last(longer).calls
    ensures Last(longer).calls[c].request == Release(id) && Last(longer).calls[c].phase.Finished?
    ensures Last(longer).calls[c].phase.outcome.Released?
  {
    hide Run;
    longer := Extend(states, c, StartRelease(id), budget);
    longer := Extend(longer, c, Proceed(0, name), budget);
    longer := Extend(longer, c, Proceed(0, name), budget);
  }

  // ----- What can happen -----

  function Request(id: string, nodePool: string, slots: int): Lease {
    RequestedLease(id, nodePool, Domain.ResourceShape(0.0, 0, slots, 1), "worker", 10, 0)
  }

  lemma RequestIs(id: string, nodePool: string, slots: int)
    requires -1000 <= slots <= 1000
    ensures Request(id, nodePool, slots).id == id && Request(id, nodePool, slots).slots == slots
    ensures Request(id, nodePool, slots).expiresAt == 10
  {
  }

  lemma Letters()
    ensures !Text.IsBlank("p") && !Text.IsBlank("q") && ConfigMapName("p") != ConfigMapName("q")
  {
    assert 'p' in "p" && !Text.IsSpace('p') && 'q' in "q" && !Text.IsSpace('q');
    assert Text.StringOr("p", "default") == "p" && Text.StringOr("q", "default") == "q";
    assert ConfigMapName("p")[16] == 'p' && ConfigMapName("q")[16] == 'q';
  }

  /** What a commit to a run does to its pools. */
  lemma PoolsAfter(states: seq<State>, longer: seq<State>, c: nat, commit: Commit, name: string, budget: int)
    requires Run(states, budget) && Run(longer, budget) && Added(Last(states), Last(longer), c, commit)
    ensures PoolOf(Last(longer), name) == Apply(PoolOf(Last(states), name), commit, name)
  {
    Serializable(states, |states| - 1, budget);
    Serializable(longer, |longer| - 1, budget);
    assert PoolOf(Last(states), name) == Replay(Last(states).log, name);
    assert PoolOf(Last(longer), name) == Replay(Last(longer).log, name);
    PrefixKept(Last(states).log, commit);
  }

  /** One worker acquires a lease at time 0. */
  lemma AcquireSlots(states: seq<State>, c: nat, id: string, nodePool: string, slots: int, other: string, budget: int)
    returns (longer: seq<State>)
    requires Run(states, budget) && c !in Last(states).calls && !Text.IsBlank(nodePool)
    requires Admit(PoolOf(Last(states), ConfigMapName(nodePool)), Request(id, nodePool, slots), 0, budget).Stored?
    ensures Run(longer, budget) && Last(longer).calls.Keys == Last(states).calls.Keys + {c}
    ensures Last(longer).log
         == Last(states).log + [Commit(c, ConfigMapName(nodePool), Admitted(Request(id, nodePool, slots), 0))]
    ensures PoolOf(Last(longer), ConfigMapName(nodePool))
         == var lease := Request(id, nodePool, slots);
            Unexpired(PoolOf(Last(states), ConfigMapName(nodePool)), 0)[lease.id := lease]
    ensures other != ConfigMapName(nodePool) ==> PoolOf(Last(longer), other) == PoolOf(Last(states), other)
  {
    hide Run, Next, ConfigMapName, Admit;
    longer := AcquireAlone(states, c, id, nodePool, Domain.ResourceShape(0.0, 0, slots, 1), "worker", 10, 0, 0, budget);
    var commit := Commit(c, ConfigMapName(nodePool), Admitted(Request(id, nodePool, slots), 0));
    PoolsAfter(states, longer, c, commit, ConfigMapName(nodePool), budget);
    PoolsAfter(states, longer, c, commit, other, budget);
  }

  lemma ReleaseSlots(states: seq<State>, c: nat, id: string, name: string, other: string, budget: int)
    returns (longer: seq<State>)
    requires Run(states, budget) && c !in Last(states).calls && id in PoolOf(Last(states), name)
    ensures Run(longer, budget) && c in Last(longer).calls
    ensures Last(longer).calls[c].request == Release(id) && Last(longer).calls[c].phase.Finished?
    ensures Last(longer).calls[c].phase.outcome.Released?
    ensures Last(longer).log == Last(states).log + [Commit(c, name, Removed(id))]
    ensures PoolOf(Last(longer), name) == PoolOf(Last(states), name) - {id}
    ensures other != name ==> PoolOf(Last(longer), other) == PoolOf(Last(states), other)
  {
    hide Run, Next;
    longer := ReleaseAlone(states, c, id, name, budget);
    PoolsAfter(states, longer, c, Commit(c, name, Removed(id)), name, budget);
    PoolsAfter(states, longer, c, Commit(c, name, Removed(id)), other, budget);
  }

  lemma BeginRun(budget: int)
    ensures Run([INIT], budget) && Last([INIT]) == INIT && forall name :: PoolOf(INIT, name) == map[]
  {
  }

  /** A pool that holds one unexpired lease, and the same pool with another one. */
  lemma OneThenTwo(a: Lease, b: Lease)
    requires a.id != b.id && a.expiresAt == b.expiresAt == 10
    ensures var empty: Pool := map[];
            && Unexpired(empty, 0) == empty && Slots(empty) == 0
            && Unexpired(empty[a.id := a], 0) == empty[a.id := a] && Slots(empty[a.id := a]) == a.slots
            && Slots(empty[b.id := b]) == b.slots
            && empty[a.id := a][b.id := b] - {a.id} == empty[b.id := b]
  {
    var empty: Pool := map[];
    SlotsAdd(empty, a);
    SlotsAdd(empty, b);
  }

  /** Acquires of -100 and 110 slots, and a release of the first. */
  function NegativeLog(): seq<Commit> {
    [Commit(0, ConfigMapName("p"), Admitted(Request("a", "p", -100), 0)),
     Commit(1, ConfigMapName("p"), Admitted(Request("b", "p", 110), 0)),
     Commit(2, ConfigMapName("p"), Removed("a"))]
  }

  /** A lease of negative slots makes room for one that no longer fits when it is released: with a
      budget of 10, one worker alone can leave a pool with 110 slots. */
  lemma NegativeSlotsExceedBudget() returns (states: seq<State>)
    ensures Run(states, SlotBudget(10)) && Last(states).log == NegativeLog()
    ensures Slots(PoolOf(Last(states), ConfigMapName("p"))) == 110
  {
    var name, a, b := ConfigMapName("p"), Request("a", "p", -100), Request("b", "p", 110);
    RequestIs("a", "p", -100);
    RequestIs("b", "p", 110);
    OneThenTwo(a, b);
    Letters();
    BeginRun(10);
    hide Run, ConfigMapName, Request, Unexpired, PoolOf, Slots;
    states := AcquireSlots([INIT], 0, "a", "p", -100, name, 10);
    states := AcquireSlots(states, 1, "b", "p", 110, name, 10);
    states := ReleaseSlots(states, 2, "a", name, name, 10);
  }

  /** In that history every lease fitted its pool when it was admitted; only the release did not. */
  lemma OnlyTheReleaseDoesNotFit()
    ensures var log := NegativeLog();
            && (forall i | 0 <= i < 2 :: CommitFits(Replay(log[..i], log[i].name), log[i].change, 10))
            && !CommitFits(Replay(log[..2], log[2].name), log[2].change, 10)
  {
    var log, name, a, b := NegativeLog(), ConfigMapName("p"), Request("a", "p", -100), Request("b", "p", 110);
    var empty: Pool := map[];
    RequestIs("a", "p", -100);
    RequestIs("b", "p", 110);
    OneThenTwo(a, b);
    assert log[..0] == [];
    assert log[..1] == [] + [log[0]] && log[..2] == log[..1] + [log[1]];
    PrefixKept([], log[0]);
    PrefixKept(log[..1], log[1]);
    hide ConfigMapName, Request, Unexpired, Slots, Replay;
    assert Replay([], name) == empty by { NothingStored(name); }
    assert Replay(log[..1], name) == empty["a" := a];
    assert Replay(log[..2], name) == empty["a" := a]["b" := b];
    SlotsAdd(empty["a" := a], b);
  }

  lemma NothingStored(name: string)
    ensures Replay([], name) == map[]
  {
  }

  /** When one ID was given to leases of two pools, a release that succeeds takes it out of one and
      leaves the other. */
  lemma ReleaseLeavesOtherPool() returns (states: seq<State>, c: nat, home: string, other: string)
    ensures Run(states, SlotBudget(10)) && c in Last(states).calls
    ensures Last(states).calls[c].request == Release("x") && Last(states).calls[c].phase.Finished?
    ensures Last(states).calls[c].phase.outcome.Released?
    ensures "x" !in PoolOf(Last(states), home) && "x" in PoolOf(Last(states), other)
  {
    home, other, c := ConfigMapName("p"), ConfigMapName("q"), 2;
    var x, y := Request("x", "p", 1), Request("x", "q", 1);
    RequestIs("x", "p", 1);
    RequestIs("x", "q", 1);
    OneThenTwo(x, y.(id := "y"));
    Letters();
    BeginRun(10);
    hide Run, ConfigMapName, Request, Unexpired, PoolOf, Slots;
    states := AcquireSlots([INIT], 0, "x", "p", 1, other, 10);
    states := AcquireSlots(states, 1, "x", "q", 1, home, 10);
    states := ReleaseSlots(states, c, "x", home, other, 10);
  }
}
