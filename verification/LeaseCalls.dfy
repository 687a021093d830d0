// One worker's call seen from the protocol: the moves its requests make, and the moves of its rivals
// in between.
module LeaseCalls {
  import opened Wrappers
  import opened LeaseSpec
  import opened LeaseProtocol
  import opened LeaseRuns
  import Text

  /** The rivals' moves, one after the other; None if one of them is not theirs to make. */
  ghost function Play(run: seq<State>, moves: seq<(nat, Action)>, me: nat, budget: int): (longer: Option<seq<State>>)
    requires run != []
    ensures longer.Some? ==> longer.value != []
    decreases |moves|
  {
    if moves == [] then Some(run)
    else
      var (c, a) := moves[0];
      if c == me || !Enabled(Last(run), c, a) then None
      else Play(run + [Next(Last(run), c, a, budget)], moves[1..], me, budget)
  }

  lemma {:induction false} PlayRuns(run: seq<State>, moves: seq<(nat, Action)>, me: nat, budget: int)
    requires run != [] && Run(run, budget) && Play(run, moves, me, budget).Some?
    ensures var longer := Play(run, moves, me, budget).value;
            && Run(longer, budget) && run <= longer
            && (me in Last(longer).calls <==> me in Last(run).calls)
            && (me in Last(run).calls ==> Last(longer).calls[me] == Last(run).calls[me])
    decreases |moves|
  {
    hide Run, Next, Enabled;
    if moves != [] {
      var (c, a) := moves[0];
      var longer := Extend(run, c, a, budget);
      OtherCallStays(Last(run), c, a, me, budget);
      PlayRuns(longer, moves[1..], me, budget);
    }
  }

  lemma PlayNothing(run: seq<State>, moves: seq<(nat, Action)>, me: nat, budget: int)
    requires run != [] && moves == []
    ensures Play(run, moves, me, budget) == Some(run)
  {
  }

  lemma OtherCallStays(s: State, c: nat, a: Action, d: nat, budget: int)
    requires Enabled(s, c, a) && d != c
    ensures d in Next(s, c, a, budget).calls <==> d in s.calls
    ensures d in s.calls ==> Next(s, c, a, budget).calls[d] == s.calls[d]
  {
    hide Admit, RequestedLease, ConfigMapName, Held;
  }

  lemma FreshCall(s: State) returns (c: nat)
    ensures c !in s.calls
  {
    c := AboveAll(s.calls.Keys);
  }

  lemma {:induction false} AboveAll(used: set<nat>) returns (c: nat)
    ensures forall d | d in used :: d < c
    decreases used
  {
    if used == {} {
      c := 0;
    } else {
      var d :| d in used;
      var above := AboveAll(used - {d});
      c := if above <= d then d + 1 else above;
      forall e | e in used ensures e < c {
        assert e == d || e in used - {d};
      }
    }
  }

  /** Where a call is after its get. */
  ghost function AfterGet(call: Call, cms: map<string, ConfigMap>, name: string, at: nat): Call {
    call.(phase := if name in cms then Loaded(cms[name], at)
                   else if call.phase.Getting? then Creating
                   else Finished(Failed, at))
  }

  /** Where a call is after its update; `at` is the length of the log by then. */
  ghost function AfterUpdate(call: Call, stored: bool, at: nat): Call {
    if stored then
      var point := if at == 0 then 0 else at - 1;
      call.(phase := Finished(if call.phase.Writing? then Acquired(point) else Released(point), at))
    else if call.attempts <= 1 then call.(phase := Finished(GaveUp, at))
    else call.(attempts := call.attempts - 1, phase := if call.request.Acquire? then Getting else Listing)
  }

  /** The call is about to write this. */
  ghost predicate Writes(call: Call, name: string, cm: ConfigMap, data: Pool) {
    match call.phase
    case Writing(c, _, _, d) => call.request.Acquire? && call.request.name == name && c == cm && d == data
    case Deleting(n, c, _) => call.request.Release? && n == name && c == cm && data == cm.data - {call.request.id}
    case _ => false
  }

  ghost function Begun(a: Action, at: nat): Call
    requires a.StartAcquire? || a.StartRelease?
  {
    match a
    case StartAcquire(id, nodePool, resources, owner, ttl, clock) =>
      var pool := Text.StringOr(nodePool, "default");
      Call(Acquire(ConfigMapName(pool), RequestedLease(id, pool, resources, owner, ttl, clock)), at,
           MAX_ATTEMPTS, Getting)
    case StartRelease(id) => Call(Release(id), at, MAX_ATTEMPTS, Listing)
  }

  lemma BegunNext(s: State, c: nat, a: Action, budget: int)
    requires (a.StartAcquire? || a.StartRelease?) && c !in s.calls
    ensures Enabled(s, c, a) && Next(s, c, a, budget) == s.(calls := s.calls[c := Begun(a, |s.log|)])
  {
  }

  lemma GetNext(s: State, c: nat, call: Call, name: string, budget: int)
    requires c in s.calls && s.calls[c] == call
    requires (call.phase.Getting? || call.phase.Regetting?) && call.request.Acquire? && call.request.name == name
    ensures Enabled(s, c, Proceed(0, ""))
    ensures Next(s, c, Proceed(0, ""), budget) == s.(calls := s.calls[c := AfterGet(call, s.cms, name, |s.log|)])
  {
    hide Admit, Held;
  }

  lemma CreateNext(s: State, c: nat, call: Call, name: string, budget: int)
    requires c in s.calls && s.calls[c] == call && call.phase.Creating? && call.request.Acquire?
        && call.request.name == name
    ensures Enabled(s, c, Proceed(0, ""))
    ensures var s' := Next(s, c, Proceed(0, ""), budget);
            if name in s.cms then s' == s.(calls := s.calls[c := call.(phase := Regetting)])
            else var cm := ConfigMap(s.nextVersion, map[]);
              && s'.cms == s.cms[name := cm] && s'.nextVersion == s.nextVersion + 1 && s'.log == s.log
              && s'.calls == s.calls[c := call.(phase := Loaded(cm, |s.log|))]
  {
    hide Admit, Held;
  }

  lemma UpdateNext(s: State, c: nat, call: Call, name: string, cm: ConfigMap, data: Pool, budget: int)
    requires c in s.calls && s.calls[c] == call && Writes(call, name, cm, data)
    ensures Enabled(s, c, Proceed(0, ""))
    ensures var s' := Next(s, c, Proceed(0, ""), budget);
            var stored := name in s.cms && s.cms[name].version == cm.version;
            && s'.calls == s.calls[c := AfterUpdate(call, stored, |s'.log|)]
            && (if stored then s'.cms == s.cms[name := ConfigMap(s.nextVersion, data)]
                && s'.nextVersion == s.nextVersion + 1
                else s' == s.(calls := s'.calls))
  {
    hide Admit, Held;
  }

  lemma DecideNext(s: State, c: nat, call: Call, cm: ConfigMap, at: nat, now: int, budget: int)
    requires c in s.calls && s.calls[c] == call && call.phase == Loaded(cm, at) && call.request.Acquire?
    ensures Enabled(s, c, Proceed(now, ""))
    ensures Next(s, c, Proceed(now, ""), budget) == s.(calls :=
        s.calls[c := Decided(call, cm, at, now, budget, |s.log|)])
  {
    hide Admit, Held;
  }

  /** Where a call is after it has looked at the pool it loaded. */
  ghost function Decided(call: Call, cm: ConfigMap, at: nat, now: int, budget: int, end: nat): Call
    requires call.request.Acquire?
  {
    match Admit(cm.data, call.request.lease, now, budget)
    case Exhausted(reserved) => call.(phase := Finished(Rejected(at, now, reserved), end))
    case Stored(data) => call.(phase := Writing(cm, at, now, data))
  }

  lemma ListNext(s: State, c: nat, call: Call, target: Option<string>, budget: int)
    requires c in s.calls && s.calls[c] == call && call.phase.Listing? && call.request.Release?
    requires target.Some? ==> target.value in s.cms && call.request.id in s.cms[target.value].data
    requires target.None? ==> forall name | name in s.cms :: call.request.id !in s.cms[name].data
    ensures var name := if target.Some? then target.value else "";
            && Enabled(s, c, Proceed(0, name))
            && Next(s, c, Proceed(0, name), budget) == s.(calls := s.calls[c := Listed(call, s.cms, target, |s.log|)])
  {
  }

  /** Where a call is after it has looked through the list. */
  ghost function Listed(call: Call, cms: map<string, ConfigMap>, target: Option<string>, at: nat): Call {
    call.(phase := if target.Some? && target.value in cms then Deleting(target.value, cms[target.value], at)
                   else Finished(NothingToRelease(at), at))
  }
}
