// The ConfigMap lease store as the code runs it: load, prune and sum in a loop, check the budget,
// write back, and start over on a conflict. The API server serves one request at a time; before
// each request, other workers' writes may land.
module LeaseStore {
  import opened Wrappers
  import opened LeaseSpec
  import GoInt
  import Text
  import Domain
  import opened LeaseProtocol
  import opened LeaseRuns
  import opened LeaseCalls

  datatype ApiError = NotFound | AlreadyExists | Stale

  datatype AcquireError = BudgetExhausted(reserved: int) | ServerError(error: ApiError)

  /** Whatever changed since then carries a version that did not exist then. */
  ghost predicate Evolved(was: map<string, ConfigMap>, next: nat, now: map<string, ConfigMap>) {
    forall name | name in was :: name in now && (now[name] == was[name] || now[name].version >= next)
  }

  class ApiServer {
    var cms: map<string, ConfigMap>
    var nextVersion: nat
    var served: nat
    /** The writes of other workers that land before each request. */
    const others: nat -> seq<(string, Pool)>
    /** The ConfigMaps as the latest request found them. */
    ghost var found: map<string, ConfigMap>

    /** The protocol moves that the writes of others are claimed to come from; `faithful` says that
        they have come from them so far, and then `run` is the run of the protocol that the server
        has been through, call `me` included. */
    ghost const rivals: nat -> seq<(nat, Action)>
    ghost const budget: int
    ghost var run: seq<State>
    ghost var me: nat
    ghost var faithful: bool

    constructor (others: nat -> seq<(string, Pool)>, ghost rivals: nat -> seq<(nat, Action)>, ghost budget: int)
      ensures Valid() && cms == map[] && faithful
      ensures this.others == others && this.rivals == rivals && this.budget == budget
    {
      this.others := others;
      cms, nextVersion, served, found := map[], 0, 0, map[];
      this.rivals, this.budget := rivals, budget;
      run, me, faithful := [INIT], 0, true;
    }

    ghost predicate Valid()
      reads this
    {
      && (forall name | name in cms :: cms[name].version < nextVersion)
      && run != []
      && (faithful ==> Run(run, budget) && Last(run).cms == cms && Last(run).nextVersion == nextVersion)
    }

    /** Nobody else writes. */
    ghost predicate Alone() {
      forall k :: others(k) == [] && rivals(k) == []
    }

    /** Call `me` of the run is this one. */
    ghost predicate Tracks(call: Call)
      reads this
    {
      faithful ==> run != [] && me in Last(run).calls && Last(run).calls[me] == call
    }

    ghost function LogLength(): nat
      reads this
    {
      if run == [] then 0 else |Last(run).log|
    }

    method Put(name: string, data: Pool)
      requires forall name | name in cms :: cms[name].version < nextVersion
      modifies `cms, `nextVersion
      ensures forall name | name in cms :: cms[name].version < nextVersion
      ensures nextVersion == old(nextVersion) + 1
      ensures cms == old(cms)[name := ConfigMap(old(nextVersion), data)]
    {
      cms := cms[name := ConfigMap(nextVersion, data)];
      nextVersion := nextVersion + 1;
    }

    method Land(writes: seq<(string, Pool)>)
      requires forall name | name in cms :: cms[name].version < nextVersion
      modifies `cms, `nextVersion
      ensures forall name | name in cms :: cms[name].version < nextVersion
      ensures nextVersion >= old(nextVersion) && Evolved(old(cms), old(nextVersion), cms)
      ensures writes == [] ==> cms == old(cms) && nextVersion == old(nextVersion)
    {
      for i := 0 to |writes|
        invariant forall name | name in cms :: cms[name].version < nextVersion
        invariant nextVersion >= old(nextVersion) && Evolved(old(cms), old(nextVersion), cms)
        invariant i == 0 ==> cms == old(cms) && nextVersion == old(nextVersion)
      {
        Put(writes[i].0, writes[i].1);
      }
    }

    /** Other workers' turn. */
    method Settle()
      requires Valid()
      modifies `cms, `nextVersion, `served, `found, `run, `faithful
      ensures Valid() && nextVersion >= old(nextVersion)
      ensures Evolved(old(cms), old(nextVersion), cms) && found == cms
      ensures var played := Play(old(run), rivals(old(served)), me, budget);
              faithful <==>
                && old(faithful) && played.Some?
                && Last(played.value).cms == cms && Last(played.value).nextVersion == nextVersion
      ensures old(run) <= run && (faithful ==> old(faithful)) && (Alone() ==> faithful == old(faithful))
      ensures faithful ==> (me in Last(run).calls <==> me in Last(old(run)).calls)
      ensures faithful && me in Last(run).calls ==> Last(run).calls[me] == Last(old(run)).calls[me]
    {
      hide Run, Next, Enabled, Play, Evolved;
      ghost var played := Play(run, rivals(served), me, budget);
      if faithful && played.Some? {
        PlayRuns(run, rivals(served), me, budget);
      }
      if Alone() {
        PlayNothing(run, rivals(served), me, budget);
      }
      Land(others(served));
      served := served + 1;
      found := cms;
      faithful := faithful && played.Some? && Last(played.value).cms == cms
          && Last(played.value).nextVersion == nextVersion;
      run := if faithful then played.value else run;
    }

    /** A move of call `me` that changes nothing on the server. */
    ghost method Move(now: int, target: string, call: Call, call': Call)
      requires Valid() && Tracks(call)
      requires faithful ==>
                 && Enabled(Last(run), me, Proceed(now, target))
                 && Next(Last(run), me, Proceed(now, target), budget)
                     == Last(run).(calls := Last(run).calls[me := call'])
      modifies `run
      ensures Valid() && Tracks(call') && old(run) <= run && LogLength() == old(LogLength())
    {
      hide Run, Next, Enabled;
      if faithful {
        run := Extend(run, me, Proceed(now, target), budget);
      }
    }

    /** A move of call `me` that the server's state has already followed. */
    ghost method Follow(now: int, target: string)
      requires run != []
      requires faithful ==>
                 && Run(run, budget) && Enabled(Last(run), me, Proceed(now, target))
                 && Next(Last(run), me, Proceed(now, target), budget).cms == cms
                 && Next(Last(run), me, Proceed(now, target), budget).nextVersion == nextVersion
      requires forall name | name in cms :: cms[name].version < nextVersion
      modifies `run
      ensures Valid() && old(run) <= run
      ensures faithful ==>
        && Enabled(Last(old(run)), me, Proceed(now, target))
        && Last(run) == Next(Last(old(run)), me, Proceed(now, target), budget)
    {
      hide Run, Next, Enabled;
      if faithful {
        run := Extend(run, me, Proceed(now, target), budget);
      }
    }

    /** A new call begins. */
    ghost method Begin(a: Action, b: int) returns (call: Call)
      requires Valid() && (a.StartAcquire? || a.StartRelease?)
      modifies `run, `me, `faithful
      ensures Valid() && old(run) <= run && faithful == (old(faithful) && budget == b)
      ensures call == Begun(a, LogLength()) && Tracks(call)
    {
      faithful := faithful && budget == b;
      me := FreshCall(Last(run));
      call := Begun(a, |Last(run).log|);
      BegunNext(Last(run), me, a, budget);
      hide Run, Next, Enabled;
      if faithful {
        run := Extend(run, me, a, budget);
      }
    }

    method Get(name: string, ghost call: Call) returns (r: Result<ConfigMap, ApiError>)
      requires Valid() && Tracks(call)
      requires (call.phase.Getting? || call.phase.Regetting?) && call.request.Acquire? && call.request.name == name
      modifies `cms, `nextVersion, `served, `found, `run, `faithful
      ensures Valid() && nextVersion >= old(nextVersion) && Evolved(old(cms), old(nextVersion), cms)
      ensures cms == found && r == if name in found then Ok(found[name]) else Err(NotFound)
      ensures Tracks(AfterGet(call, found, name, LogLength()))
      ensures old(run) <= run && (faithful ==> old(faithful)) && (Alone() ==> faithful == old(faithful))
    {
      Settle();
      r := if name in cms then Ok(cms[name]) else Err(NotFound);
      if faithful {
        GetNext(Last(run), me, call, name, budget);
      }
      Move(0, "", call, AfterGet(call, cms, name, LogLength()));
    }

    method Create(name: string, ghost call: Call) returns (r: Result<ConfigMap, ApiError>)
      requires Valid() && Tracks(call)
      requires call.phase.Creating? && call.request.Acquire? && call.request.name == name
      modifies `cms, `nextVersion, `served, `found, `run, `faithful
      ensures Valid() && nextVersion >= old(nextVersion) && Evolved(old(cms), old(nextVersion), cms)
      ensures if name in found then r == Err(AlreadyExists) && cms == found
              else r.Ok? && r.value.data == map[] && cms == found[name := r.value]
      ensures Tracks(call.(phase := if r.Ok? then Loaded(r.value, LogLength()) else Regetting))
      ensures old(run) <= run && (faithful ==> old(faithful)) && (Alone() ==> faithful == old(faithful))
    {
      Settle();
      if faithful {
        CreateNext(Last(run), me, call, name, budget);
      }
      if name in cms {
        Move(0, "", call, call.(phase := Regetting));
        return Err(AlreadyExists);
      }
      Put(name, map[]);
      r := Ok(cms[name]);
      Follow(0, "");
    }

    /** Compare-and-swap on the ConfigMap's version. */
    method Update(name: string, cm: ConfigMap, data: Pool, ghost call: Call) returns (r: Result<(), ApiError>)
      requires Valid() && Tracks(call) && Writes(call, name, cm, data)
      modifies `cms, `nextVersion, `served, `found, `run, `faithful
      ensures Valid() && nextVersion >= old(nextVersion) && Evolved(old(cms), old(nextVersion), found)
      ensures r.Ok? <==> name in found && found[name].version == cm.version
      ensures if r.Ok? then exists v: nat :: cms == found[name := ConfigMap(v, data)] else cms == found
      ensures r.Ok? ==> OnlyChange(found, cms, name, data)
      ensures r.Err? && name in found ==> r.error == Stale
      ensures Tracks(AfterUpdate(call, r.Ok?, LogLength()))
      ensures old(run) <= run && (faithful ==> old(faithful)) && (Alone() ==> faithful == old(faithful))
    {
      hide Run, Next, Enabled, Evolved, OnlyChange, Writes, AfterUpdate;
      Settle();
      if faithful {
        UpdateNext(Last(run), me, call, name, cm, data, budget);
      }
      if name !in cms {
        Move(0, "", call, AfterUpdate(call, false, LogLength()));
        return Err(NotFound);
      }
      if cms[name].version != cm.version {
        Move(0, "", call, AfterUpdate(call, false, LogLength()));
        return Err(Stale);
      }
      ghost var v := nextVersion;
      Put(name, data);
      assert cms == found[name := ConfigMap(v, data)];
      StoresOnly(found, name, ConfigMap(v, data));
      r := Ok(());
      Follow(0, "");
    }

    method List() returns (items: map<string, ConfigMap>)
      requires Valid()
      modifies `cms, `nextVersion, `served, `found, `run, `faithful
      ensures Valid() && nextVersion >= old(nextVersion) && Evolved(old(cms), old(nextVersion), cms)
      ensures items == cms == found
      ensures old(run) <= run && (faithful ==> old(faithful)) && (Alone() ==> faithful == old(faithful))
      ensures faithful ==> (me in Last(run).calls <==> me in Last(old(run)).calls)
      ensures faithful && me in Last(run).calls ==> Last(run).calls[me] == Last(old(run)).calls[me]
    {
      Settle();
      items := cms;
    }
  }

  function Contents(cms: map<string, ConfigMap>, name: string): Pool {
    if name in cms then cms[name].data else map[]
  }

  /** Exactly one pool changed, from what the last request found to `data`. */
  ghost predicate OnlyChange(found: map<string, ConfigMap>, cms: map<string, ConfigMap>, name: string, data: Pool) {
    && Contents(cms, name) == data
    && forall other | other != name :: Contents(cms, other) == Contents(found, other)
  }

  /** One pass over the pool: expired leases go, the slots of the others add up. The order of
      the pass is whatever order Go iterates the map in. */
  method PruneAndSum(pool: Pool, now: int) returns (kept: Pool, reserved: int)
    ensures kept == Unexpired(pool, now)
    ensures reserved == GoInt.Wrap(Slots(kept))
  {
    kept, reserved := pool, 0;
    var todo := pool.Keys;
    ghost var counted: Pool := map[];
    while todo != {}
      invariant todo <= pool.Keys
      invariant counted == map id | id in pool && id !in todo && !(pool[id].expiresAt < now) :: pool[id]
      invariant kept == map id | id in pool && (id in todo || id in counted) :: pool[id]
      invariant reserved == GoInt.Wrap(Slots(counted))
      decreases todo
    {
      var id :| id in todo;
      todo := todo - {id};
      if pool[id].expiresAt < now {
        kept := kept - {id};
      } else {
        CountOne(counted, id, pool[id], reserved);
        reserved := GoInt.Wrap(reserved + pool[id].slots);
        counted := counted[id := pool[id]];
      }
    }
    assert kept == counted == Unexpired(pool, now);
  }

  class LeaseStore {
    const api: ApiServer
    const slotBudget: int

    constructor (api: ApiServer, configured: int)
      ensures this.api == api && slotBudget == SlotBudget(configured)
    {
      this.api := api;
      slotBudget := SlotBudget(configured);
    }

    /** The call's own get, and its create and second get if the pool is missing. */
    method Load(name: string, ghost call: Call) returns (r: Result<ConfigMap, ApiError>)
      requires api.Valid() && api.Tracks(call)
      requires call.phase.Getting? && call.request.Acquire? && call.request.name == name
      modifies api`cms, api`nextVersion, api`served, api`found, api`run, api`faithful
      ensures api.Valid()
      ensures r.Ok? ==> name in api.cms && r.value == api.cms[name] && r.value.data == Contents(api.found, name)
      ensures r.Err? ==> api.cms == api.found && r.error == NotFound
      ensures api.Tracks(call.(phase := if r.Ok? then Loaded(r.value, api.LogLength())
          else Finished(Failed, api.LogLength())))
      ensures old(api.run) <= api.run && (api.faithful ==> old(api.faithful))
      ensures api.Alone() ==> api.faithful == old(api.faithful)
    {
      r := api.Get(name, call);
      if r == Err(NotFound) {
        var created := api.Create(name, call.(phase := Creating));
        if created != Err(AlreadyExists) {
          return created;
        }
        r := api.Get(name, call.(phase := Regetting));
      }
    }

    /** The server has been through a run of the protocol in which this call was made and ended. */
    ghost predicate Ended(request: Request, outcome: Outcome)
      reads api
    {
      api.faithful ==>
        && Run(api.run, slotBudget) && api.me in Last(api.run).calls
        && Last(api.run).calls[api.me].request == request
        && Last(api.run).calls[api.me].phase.Finished?
        && Last(api.run).calls[api.me].phase.outcome == outcome
    }

    /** The call is about to start over with this many attempts left, or has none and gave up. */
    ghost predicate Trying(call: Call, phase: Phase, left: nat) {
      if left > 0 then call.phase == phase && call.attempts == left
      else call.phase.Finished? && call.phase.outcome.GaveUp?
    }

    /** `clock(k)` is the reading taken in the k-th attempt. A success is one serial acquire on
        the pool as the winning update found it, and touches nothing else; a refusal was right
        about the pool as it was loaded; losing every race leaves no trace. Where the writes of
        others are moves of the protocol, so are this call's, with the outcome to match. */
    method Acquire(nodePool: string, resources: Domain.ResourceShape, owner: string, ttl: int,
                   leaseID: string, started: int, clock: nat -> int)
      returns (r: Result<Lease, AcquireError>)
      requires api.Valid()
      modifies api
      ensures api.Valid()
      ensures var pool := Text.StringOr(nodePool, "default");
              var lease := RequestedLease(leaseID, pool, resources, owner, ttl, started);
              match r
              case Ok(granted) =>
                && granted == lease
                && exists attempt: nat ::
                     && attempt < MAX_ATTEMPTS
                     && Admit(Contents(api.found, ConfigMapName(pool)), lease, clock(attempt), slotBudget)
                        == Stored(Contents(api.cms, ConfigMapName(pool)))
                     && OnlyChange(api.found, api.cms, ConfigMapName(pool), Contents(api.cms, ConfigMapName(pool)))
              case Err(BudgetExhausted(reserved)) =>
                exists attempt: nat ::
                  && attempt < MAX_ATTEMPTS
                  && Admit(Contents(api.found, ConfigMapName(pool)), lease, clock(attempt), slotBudget)
                      == Exhausted(reserved)
              case Err(ServerError(_)) => forall name :: Contents(api.cms, name) == Contents(api.found, name)
      ensures var pool := Text.StringOr(nodePool, "default");
              var request := Request.Acquire(ConfigMapName(pool),
                  RequestedLease(leaseID, pool, resources, owner, ttl, started));
              match r
              case Ok(_) => exists point :: Ended(request, Acquired(point))
              case Err(BudgetExhausted(reserved)) => exists at, now :: Ended(request, Rejected(at, now, reserved))
              case Err(ServerError(_)) => Ended(request, GaveUp) || Ended(request, Failed)
      ensures r.Ok? ==> r.value.expiresAt == started + ttl && r.value.slots == resources.Slots()
      ensures old(api.run) <= api.run
      ensures api.Alone() && api.budget == slotBudget ==> api.faithful == old(api.faithful)
    {
      var pool := Text.StringOr(nodePool, "default");
      var lease := RequestedLease(leaseID, pool, resources, owner, ttl, started);
      var name := ConfigMapName(pool);
      ghost var request := Request.Acquire(name, lease);
      ghost var call := api.Begin(StartAcquire(leaseID, nodePool, resources, owner, ttl, started), slotBudget);
      hide RequestedLease, ConfigMapName, Text.StringOr, Run, Next, Enabled, Admit, OnlyChange;
      for attempt := 0 to MAX_ATTEMPTS
        invariant api.Valid() && api.Tracks(call) && call.request == request
        invariant attempt > 0 ==> api.cms == api.found
        invariant Trying(call, Getting, MAX_ATTEMPTS - attempt)
        invariant old(api.run) <= api.run && (api.faithful ==> api.budget == slotBudget)
        invariant api.Alone() && api.budget == slotBudget ==> api.faithful == old(api.faithful)
      {
        var tried;
        tried, call := TryAcquire(name, lease, clock(attempt), call);
        if tried.Ok? {
          assert Ended(request, call.phase.outcome);
          return Ok(lease);
        }
        if tried.error != ServerError(Stale) {
          assert Ended(request, call.phase.outcome);
          return Err(tried.error);
        }
      }
      assert Ended(request, GaveUp);
      r := Err(ServerError(Stale));
    }

    /** Prune, sum, and check the budget: the leases to write back, or how many slots are reserved. */
    method Decide(cm: ConfigMap, lease: Lease, now: int, ghost call: Call, ghost at: nat)
      returns (r: Result<Pool, int>, ghost call': Call)
      requires api.Valid() && api.Tracks(call) && (api.faithful ==> api.budget == slotBudget) && at == api.LogLength()
      requires call.phase == Loaded(cm, at) && call.request.Acquire? && call.request.lease == lease
      modifies api`run
      ensures api.Valid() && api.Tracks(call') && old(api.run) <= api.run
      ensures Admit(cm.data, lease, now, slotBudget) == (if r.Ok? then Stored(r.value) else Exhausted(r.error))
      ensures call' == call.(phase := if r.Ok? then Writing(cm, at, now, r.value)
          else Finished(Rejected(at, now, r.error), at))
    {
      var kept, reserved := PruneAndSum(cm.data, now);
      if lease.id !in kept && GoInt.Wrap(reserved + lease.slots) > slotBudget {
        r := Err(reserved);
      } else {
        r := Ok(kept[lease.id := lease]);
      }
      assert Admit(cm.data, lease, now, slotBudget) == (if r.Ok? then Stored(r.value) else Exhausted(r.error));
      call' := Decided(call, cm, at, now, slotBudget, at);
      hide Run, Next, Enabled, Admit;
      if api.faithful {
        DecideNext(Last(api.run), api.me, call, cm, at, now, slotBudget);
      }
      api.Move(now, "", call, call');
    }

    /** The function that is retried: one load, one decision, one update. */
    method TryAcquire(name: string, lease: Lease, now: int, ghost call: Call)
      returns (r: Result<(), AcquireError>, ghost call': Call)
      requires api.Valid() && api.Tracks(call) && (api.faithful ==> api.budget == slotBudget)
      requires call.phase.Getting? && call.request == Request.Acquire(name, lease)
      modifies api`cms, api`nextVersion, api`served, api`found, api`run, api`faithful
      ensures api.Valid() && api.Tracks(call') && call'.request == call.request
      ensures match r
              case Ok(_) =>
                && Admit(Contents(api.found, name), lease, now, slotBudget) == Stored(Contents(api.cms, name))
                && OnlyChange(api.found, api.cms, name, Contents(api.cms, name))
                && call'.phase.Finished? && call'.phase.outcome.Acquired?
              case Err(BudgetExhausted(reserved)) =>
                && Admit(Contents(api.found, name), lease, now, slotBudget) == Exhausted(reserved)
                && call'.phase.Finished? && call'.phase.outcome.Rejected? && call'.phase.outcome.reserved == reserved
              case Err(ServerError(e)) =>
                && api.cms == api.found
                && (e == Stale ==> Trying(call', Getting, if call.attempts == 0 then 0 else call.attempts - 1))
                && (e != Stale ==> call'.phase.Finished? && call'.phase.outcome.Failed?)
      ensures old(api.run) <= api.run && (api.faithful ==> old(api.faithful))
      ensures api.Alone() ==> api.faithful == old(api.faithful)
    {
      hide Run, Next, Enabled, Admit, Evolved, OnlyChange, AfterUpdate;
      var loaded := Load(name, call);
      ghost var at := api.LogLength();
      if loaded.Err? {
        call' := call.(phase := Finished(Failed, at));
        return Err(ServerError(loaded.error)), call';
      }
      var cm := loaded.value;
      var kept;
      kept, call' := Decide(cm, lease, now, call.(phase := Loaded(cm, at)), at);
      if kept.Err? {
        return Err(BudgetExhausted(kept.error)), call';
      }
      ghost var loadedFrom, next := api.cms, api.nextVersion;
      var saved := api.Update(name, cm, kept.value, call');
      call' := AfterUpdate(call', saved.Ok?, api.LogLength());
      StillThere(loadedFrom, next, api.found, name, cm);
      AfterWriting(call.(phase := Writing(cm, at, now, kept.value)), saved.Ok?, api.LogLength());
      OnlyChangeWrites(api.found, api.cms, name, kept.value);
      return (if saved.Err? then Err(ServerError(saved.error)) else Ok(())), call';
    }

    /** Releasing takes the lease out of one pool that holds it, and out of nothing else; when it
        reports success without a write, no pool held the lease. Where the writes of others are
        moves of the protocol, so are this call's, with the outcome to match. */
    method Release(leaseID: string) returns (r: Result<(), ApiError>)
      requires api.Valid()
      modifies api
      ensures api.Valid()
      ensures r.Ok? ==>
                || (exists name ::
                      && leaseID in Contents(api.found, name)
                      && OnlyChange(api.found, api.cms, name, Contents(api.found, name) - {leaseID})
                      && exists point :: Ended(Request.Release(leaseID), Released(point)))
                || (api.cms == api.found && (forall name :: leaseID !in Contents(api.found, name))
                    && exists at :: Ended(Request.Release(leaseID), NothingToRelease(at)))
      ensures r.Err? ==> api.cms == api.found && Ended(Request.Release(leaseID), GaveUp)
      ensures old(api.run) <= api.run
      ensures api.Alone() && api.budget == slotBudget ==> api.faithful == old(api.faithful)
    {
      ghost var request := Request.Release(leaseID);
      ghost var call := api.Begin(StartRelease(leaseID), slotBudget);
      hide Run, Next, Enabled, OnlyChange;
      for attempt := 0 to MAX_ATTEMPTS
        invariant api.Valid() && api.Tracks(call) && call.request == request
        invariant attempt > 0 ==> api.cms == api.found
        invariant Trying(call, Listing, MAX_ATTEMPTS - attempt)
        invariant old(api.run) <= api.run && (api.faithful ==> api.budget == slotBudget)
        invariant api.Alone() && api.budget == slotBudget ==> api.faithful == old(api.faithful)
      {
        var tried;
        tried, call := TryRelease(leaseID, call);
        if tried.Ok? {
          assert Ended(request, call.phase.outcome);
          return Ok(());
        }
      }
      assert Ended(request, GaveUp);
      r := Err(Stale);
    }

    /** The function that is retried: one list, one update. */
    method TryRelease(leaseID: string, ghost call: Call) returns (r: Result<(), ApiError>, ghost call': Call)
      requires api.Valid() && api.Tracks(call) && (api.faithful ==> api.budget == slotBudget)
      requires call.phase.Listing? && call.request == Request.Release(leaseID)
      modifies api`cms, api`nextVersion, api`served, api`found, api`run, api`faithful
      ensures api.Valid() && api.Tracks(call') && call'.request == call.request
      ensures r.Ok? ==> call'.phase.Finished?
      ensures r.Ok? ==>
                || (call'.phase.outcome.Released? && exists name ::
                      && leaseID in Contents(api.found, name)
                      && OnlyChange(api.found, api.cms, name, Contents(api.found, name) - {leaseID}))
                || (call'.phase.outcome.NothingToRelease? && api.cms == api.found
                    && forall name :: leaseID !in Contents(api.found, name))
      ensures r.Err? ==> api.cms == api.found && Trying(call', Listing,
          if call.attempts == 0 then 0 else call.attempts - 1)
      ensures old(api.run) <= api.run && (api.faithful ==> old(api.faithful))
      ensures api.Alone() ==> api.faithful == old(api.faithful)
    {
      hide Run, Next, Enabled;
      var items := api.List();
      var hit := FirstHolder(items, leaseID);
      call' := Listed(call, items, hit, api.LogLength());
      if api.faithful {
        ListNext(Last(api.run), api.me, call, hit, slotBudget);
      }
      api.Move(0, if hit.Some? then hit.value else "", call, call');
      if hit.None? {
        return Ok(()), call';
      }
      var cm := items[hit.value];
      var saved := api.Update(hit.value, cm, cm.data - {leaseID}, call');
      call' := AfterUpdate(call', saved.Ok?, api.LogLength());
      if saved.Err? {
        assert hit.value in api.found && saved.error == Stale;
        return Err(Stale), call';
      }
      assert api.found[hit.value] == cm;
      assert OnlyChange(api.found, api.cms, hit.value, Contents(api.found, hit.value) - {leaseID});
      return Ok(()), call';
    }
  }

  /** ConfigMaps are never deleted, and one whose version is the same has not changed. */
  lemma StillThere(was: map<string, ConfigMap>, next: nat, now: map<string, ConfigMap>, name: string, cm: ConfigMap)
    requires Evolved(was, next, now) && name in was && was[name] == cm && cm.version < next
    ensures name in now && (now[name].version == cm.version ==> now[name] == cm && Contents(now, name) == cm.data)
  {
  }

  lemma StoresOnly(found: map<string, ConfigMap>, name: string, cm: ConfigMap)
    ensures OnlyChange(found, found[name := cm], name, cm.data)
  {
  }

  lemma OnlyChangeWrites(found: map<string, ConfigMap>, cms: map<string, ConfigMap>, name: string, data: Pool)
    ensures OnlyChange(found, cms, name, data) ==> Contents(cms, name) == data
  {
  }

  lemma AfterWriting(call: Call, stored: bool, at: nat)
    requires call.phase.Writing? && call.request.Acquire?
    ensures var after := AfterUpdate(call, stored, at);
            && after.request == call.request
            && (stored ==> after.phase.Finished? && after.phase.outcome.Acquired?)
            && (!stored && call.attempts > 1 ==> after.phase == Getting && after.attempts == call.attempts - 1)
            && (!stored && call.attempts <= 1 ==> after.phase.Finished? && after.phase.outcome.GaveUp?)
  {
  }

  /** The loop over the list: the first ConfigMap that holds the lease, in whatever order it comes. */
  method FirstHolder(items: map<string, ConfigMap>, leaseID: string) returns (hit: Option<string>)
    ensures hit.Some? ==> hit.value in items && leaseID in items[hit.value].data
    ensures hit.None? ==> forall name | name in items :: leaseID !in items[name].data
  {
    var names := items.Keys;
    hit := None;
    while names != {} && hit.None?
      invariant names <= items.Keys
      invariant hit.Some? ==> hit.value in items && leaseID in items[hit.value].data
      invariant hit.None? ==> forall name | name in items && name !in names :: leaseID !in items[name].data
      decreases names
    {
      var name :| name in names;
      names := names - {name};
      if leaseID in items[name].data {
        hit := Some(name);
      }
    }
  }
}
