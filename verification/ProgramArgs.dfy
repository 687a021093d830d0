// Rendering job arguments as `--key value` pairs, the program that reads them back, and the
// canonical list of pairs that hashMap digests. Go iterates a map in an unspecified order:
// `order` stands for the order one iteration happened to take.
module ProgramArgs {
  import opened SortedKeys

  const RESERVED := {"cohestra.jarURI", "cohestra.entryClass", "cohestra.jobManagerMemory"}

  /** `order` lists every key of the map once. */
  predicate Enumerates(order: seq<string>, m: map<string, string>) {
    Distinct(order) && Elements(order) == m.Keys
  }

  function Unreserved(order: seq<string>): seq<string> {
    if order == [] then []
    else
      var rest := Unreserved(order[..|order| - 1]);
      if order[|order| - 1] in RESERVED then rest else rest + [order[|order| - 1]]
  }

  lemma {:induction false} UnreservedKeys(order: seq<string>)
    requires Distinct(order)
    ensures Distinct(Unreserved(order)) && Elements(Unreserved(order)) == Elements(order) - RESERVED
  {
    if order != [] {
      var init, last := order[..|order| - 1], order[|order| - 1];
      UnreservedKeys(init);
      assert order == init + [last];
      ElementsSnoc(init, last);
      var kept := Unreserved(init);
      ElementsSnoc(kept, last);
      assert last !in init && last !in Elements(kept);
      assert forall x :: x in kept ==> x in Elements(kept);
      assert Unreserved(order) == if last in RESERVED then kept else kept + [last];
    }
  }

  /** `--key value` for each key, in the order given. */
  function Render(keys: seq<string>, m: map<string, string>): seq<string>
    requires Elements(keys) <= m.Keys
  {
    if keys == [] then []
    else
      var last := keys[|keys| - 1];
      assert last in Elements(keys);
      assert Elements(keys[..|keys| - 1]) <= Elements(keys);
      Render(keys[..|keys| - 1], m) + ["--" + last, m[last]]
  }

  lemma UnreservedSnoc(order: seq<string>, x: string)
    ensures Unreserved(order + [x]) == if x in RESERVED then Unreserved(order) else Unreserved(order) + [x]
  {
    assert (order + [x])[..|order|] == order;
  }

  lemma RenderSnoc(keys: seq<string>, x: string, m: map<string, string>)
    requires Elements(keys) <= m.Keys && x in m
    ensures Elements(keys + [x]) <= m.Keys
    ensures Render(keys + [x], m) == Render(keys, m) + ["--" + x, m[x]]
  {
    ElementsSnoc(keys, x);
    assert (keys + [x])[..|keys|] == keys;
  }

  /** The argument list of a map, seen through one iteration order. */
  function Arguments(m: map<string, string>, order: seq<string>): seq<string>
    requires Enumerates(order, m)
  {
    UnreservedKeys(order);
    Render(Sort(Unreserved(order)), m)
  }

  /** The first loop: the keys that are not reserved, in iteration order. */
  method CollectKeys(order: seq<string>) returns (keys: seq<string>)
    ensures keys == Unreserved(order)
  {
    keys := [];
    for i := 0 to |order|
      invariant keys == Unreserved(order[..i])
    {
      UnreservedSnoc(order[..i], order[i]);
      assert order[..i + 1] == order[..i] + [order[i]];
      if order[i] in RESERVED { continue; }
      keys := keys + [order[i]];
    }
    assert order[..|order|] == order;
  }

  method ProgramArgs(jobArgs: map<string, string>, order: seq<string>) returns (args: seq<string>)
    requires Enumerates(order, jobArgs)
    ensures args == Arguments(jobArgs, order)
  {
    var keys := CollectKeys(order);
    UnreservedKeys(order);
    keys := Sort(keys);
    args := [];
    ghost var wanted := Arguments(jobArgs, order);
    assert Elements(keys) <= jobArgs.Keys && wanted == Render(keys, jobArgs);
    RenderNothing(jobArgs);
    hide Sort, Unreserved, Arguments, Render, Enumerates, Elements, Distinct;
    for i := 0 to |keys|
      invariant Rendered(keys, i, jobArgs, args)
    {
      RenderNext(keys, i, jobArgs, args);
      args := args + ["--" + keys[i], jobArgs[keys[i]]];
    }
    assert keys[..|keys|] == keys;
  }

  /** The second loop has rendered the first n keys. */
  ghost predicate Rendered(keys: seq<string>, n: nat, m: map<string, string>, args: seq<string>)
    requires n <= |keys|
  {
    Elements(keys[..n]) <= m.Keys && args == Render(keys[..n], m)
  }

  lemma RenderNothing(m: map<string, string>)
    ensures Elements([]) <= m.Keys && Render([], m) == []
  {
  }

  lemma RenderNext(keys: seq<string>, n: nat, m: map<string, string>, args: seq<string>)
    requires n < |keys| && Elements(keys) <= m.Keys && Rendered(keys, n, m, args)
    ensures keys[n] in m && Rendered(keys, n + 1, m, args + ["--" + keys[n], m[keys[n]]])
  {
    assert keys[n] in Elements(keys);
    ElementsSnoc(keys[..n], keys[n]);
    assert keys[..n + 1] == keys[..n] + [keys[n]];
    RenderSnoc(keys[..n], keys[n], m);
    hide Render;
  }

  function StripDashes(key: string): string {
    if "--" <= key then key[2..] else key
  }

  /** What the reader makes of an argument list: later pairs win, an odd last argument is ignored. */
  function Parsed(args: seq<string>): map<string, string> {
    if |args| < 2 then map[]
    else if |args| % 2 == 1 then Parsed(args[..|args| - 1])
    else Parsed(args[..|args| - 2])[StripDashes(args[|args| - 2]) := args[|args| - 1]]
  }

  method ParseArgs(args: seq<string>) returns (params: map<string, string>)
    ensures params == Parsed(args)
  {
    params := map[];
    var i := 0;
    while i + 1 < |args|
      invariant 0 <= i <= |args| && i % 2 == 0
      invariant params == Parsed(args[..i])
    {
      var key := args[i];
      if "--" <= key {
        key := key[2..];
      }
      params := params[key := args[i + 1]];
      assert args[..i + 2][..i] == args[..i];
      i := i + 2;
    }
    assert args[..|args|] == args;
    if i < |args| {
      assert args[..|args| - 1] == args[..i];
    }
  }

  lemma {:induction false} ParsedRender(keys: seq<string>, m: map<string, string>)
    requires Elements(keys) <= m.Keys
    ensures |Render(keys, m)| == 2 * |keys|
    ensures Parsed(Render(keys, m)) == map k | k in Elements(keys) :: m[k]
  {
    if keys != [] {
      var init, last := keys[..|keys| - 1], keys[|keys| - 1];
      assert keys == init + [last];
      ElementsSnoc(init, last);
      assert Render(keys, m) == Render(init, m) + ["--" + last, m[last]];
      hide Render, Parsed, Elements;
      ParsedRender(init, m);
      ParsedPair(Render(init, m), last, m[last]);
    }
  }

  lemma ParsedPair(args: seq<string>, key: string, value: string)
    requires |args| % 2 == 0
    ensures Parsed(args + ["--" + key, value]) == Parsed(args)[key := value]
  {
    hide Parsed;
    var all := args + ["--" + key, value];
    assert all[..|all| - 2] == args;
    ParsedOnce(all);
    StripsDashes(key);
  }

  lemma ParsedOnce(args: seq<string>)
    requires |args| >= 2 && |args| % 2 == 0
    ensures Parsed(args) == Parsed(args[..|args| - 2])[StripDashes(args[|args| - 2]) := args[|args| - 1]]
  {
    hide StripDashes;
  }

  lemma StripsDashes(key: string)
    ensures StripDashes("--" + key) == key
  {
    assert ("--" + key)[2..] == key;
  }

  /** The job sees exactly the arguments it was given, minus the reserved ones. */
  lemma ArgumentsRoundTrip(m: map<string, string>, order: seq<string>)
    requires Enumerates(order, m)
    ensures Parsed(Arguments(m, order)) == m - {"cohestra.jarURI", "cohestra.entryClass", "cohestra.jobManagerMemory"}
  {
    UnreservedKeys(order);
    ParsedRender(Sort(Unreserved(order)), m);
  }

  /** The list is `--key value` for each unreserved key, in the order of the keys. */
  lemma ArgumentsForm(m: map<string, string>, order: seq<string>) returns (keys: seq<string>)
    requires Enumerates(order, m)
    ensures Sorted(keys)
    ensures Elements(keys) == m.Keys - {"cohestra.jarURI", "cohestra.entryClass", "cohestra.jobManagerMemory"}
    ensures var args := Arguments(m, order);
            && |args| == |keys| + |keys|
            && forall i | 0 <= i < |keys| ::
                 keys[i] in m && args[2 * i] == "--" + keys[i] && args[2 * i + 1] == m[keys[i]]
  {
    UnreservedKeys(order);
    keys := Sort(Unreserved(order));
    assert Elements(keys) <= m.Keys;
    RenderForm(keys, m);
  }

  lemma {:induction false} RenderForm(keys: seq<string>, m: map<string, string>)
    requires Elements(keys) <= m.Keys
    ensures |Render(keys, m)| == |keys| + |keys|
    ensures forall i | 0 <= i < |keys| ::
              && keys[i] in m
              && Render(keys, m)[2 * i] == "--" + keys[i] && Render(keys, m)[2 * i + 1] == m[keys[i]]
  {
    if keys != [] {
      var init, last := keys[..|keys| - 1], keys[|keys| - 1];
      assert keys == init + [last];
      ElementsSnoc(init, last);
      RenderForm(init, m);
      assert last in Elements(keys);
      assert Render(keys, m) == Render(init, m) + ["--" + last, m[last]];
      hide Render;
      forall i | 0 <= i < |keys|
        ensures keys[i] in m && Render(keys, m)[2 * i] == "--" + keys[i] && Render(keys, m)[2 * i + 1] == m[keys[i]]
      {
        if i < |init| {
          assert keys[i] == init[i];
        }
      }
    }
  }

  /** An argument names a key with two dashes before it, or without if the key has none itself. */
  predicate Names(arg: string, key: string) {
    arg == "--" + key || (arg == key && !("--" <= arg))
  }

  /** The reader finds a key exactly when some pair names it. */
  lemma ParsedFew(args: seq<string>)
    requires |args| < 2
    ensures Parsed(args) == map[]
  {
  }

  lemma ParsedOdd(args: seq<string>)
    requires |args| > 2 && |args| % 2 == 1
    ensures Parsed(args) == Parsed(args[..|args| - 1])
  {
  }

  lemma {:induction false} ParsedExactly(args: seq<string>, key: string)
    ensures key in Parsed(args) <==> exists i: nat :: PairAt(args, i) && Names(args[2 * i], key)
    decreases |args|
  {
    hide Parsed;
    if |args| < 2 {
      ParsedFew(args);
    } else {
      var n := if |args| % 2 == 1 then |args| - 1 else |args| - 2;
      var rest := args[..n];
      ParsedExactly(rest, key);
      if |args| % 2 == 1 {
        ParsedOdd(args);
      } else {
        ParsedOnce(args);
      }
      StripNames(args[|args| - 2], key);
      hide Names, StripDashes;
      if i: nat :| PairAt(rest, i) && Names(rest[2 * i], key) {
        assert PairAt(args, i) && args[2 * i] == rest[2 * i];
      }
      if i: nat :| PairAt(args, i) && Names(args[2 * i], key) {
        if 2 * i + 1 < n {
          assert PairAt(rest, i) && args[2 * i] == rest[2 * i];
        } else {
          assert 2 * i == |args| - 2;
        }
      }
      if |args| % 2 == 0 {
        var i := (|args| - 2) / 2;
        assert PairAt(args, i) && args[2 * i] == args[|args| - 2];
      }
    }
  }

  predicate PairAt(args: seq<string>, i: nat) {
    2 * i + 1 < |args|
  }

  lemma StripNames(arg: string, key: string)
    ensures StripDashes(arg) == key <==> Names(arg, key)
  {
    if "--" <= arg {
      assert arg == "--" + arg[2..];
      assert ("--" + key)[2..] == key;
    }
  }

  /** The last pair that names a key gives its value. */
  lemma {:induction false} ParsedLast(args: seq<string>, i: nat, key: string)
    requires PairAt(args, i) && Names(args[2 * i], key)
    requires forall j: nat :: i < j && PairAt(args, j) ==> !Names(args[2 * j], key)
    ensures key in Parsed(args) && Parsed(args)[key] == args[2 * i + 1]
    decreases |args|
  {
    var n := if |args| % 2 == 1 then |args| - 1 else |args| - 2;
    var rest := args[..n];
    StripNames(args[|args| - 2], key);
    if |args| % 2 == 1 {
      ParsedOdd(args);
    } else {
      ParsedOnce(args);
    }
    hide Names, StripDashes, Parsed;
    if 2 * i + 1 < n {
      forall j: nat | i < j && PairAt(rest, j) ensures !Names(rest[2 * j], key) {
        assert PairAt(args, j) && rest[2 * j] == args[2 * j];
      }
      ParsedLast(rest, i, key);
      if |args| % 2 == 0 {
        var j := (|args| - 2) / 2;
        assert PairAt(args, j) && args[2 * j] == args[|args| - 2];
      }
    } else {
      assert 2 * i == |args| - 2;
    }
  }

  /** Two iterations of the same map render the same list; and two maps render the same list
      exactly when they agree outside the reserved keys. */
  lemma ArgumentsCanonical(m: map<string, string>, order: seq<string>, m': map<string, string>, order': seq<string>)
    requires Enumerates(order, m) && Enumerates(order', m')
    ensures Arguments(m, order) == Arguments(m', order') <==>
              var reserved := {"cohestra.jarURI", "cohestra.entryClass", "cohestra.jobManagerMemory"};
              m - reserved == m' - reserved
  {
    ArgumentsRoundTrip(m, order);
    ArgumentsRoundTrip(m', order');
    if m - RESERVED == m' - RESERVED {
      UnreservedKeys(order);
      UnreservedKeys(order');
      assert (m - RESERVED).Keys == m.Keys - RESERVED && (m' - RESERVED).Keys == m'.Keys - RESERVED;
      SortForgetsOrder(Unreserved(order), Unreserved(order'));
      var keys := Sort(Unreserved(order));
      assert forall k | k in Elements(keys) :: m[k] == (m - RESERVED)[k] && m'[k] == (m' - RESERVED)[k];
      RenderDependsOnValues(keys, m, m');
    }
  }

  lemma {:induction false} RenderDependsOnValues(keys: seq<string>, m: map<string, string>, m': map<string, string>)
    requires Elements(keys) <= m.Keys && Elements(keys) <= m'.Keys
    requires forall k | k in Elements(keys) :: m[k] == m'[k]
    ensures Render(keys, m) == Render(keys, m')
  {
    if keys != [] {
      assert keys[|keys| - 1] in Elements(keys);
      assert Elements(keys[..|keys| - 1]) <= Elements(keys);
      RenderDependsOnValues(keys[..|keys| - 1], m, m');
    }
  }

  // ----- hashMap -----

  /** The list of pairs that is hashed, seen through one iteration order. */
  function HashInput(m: map<string, string>, order: seq<string>): seq<(string, string)>
    requires Enumerates(order, m)
  {
    var keys := Sort(order);
    assert forall i | 0 <= i < |keys| :: keys[i] in Elements(keys);
    seq(|keys|, i requires 0 <= i < |keys| => (keys[i], m[keys[i]]))
  }

  method HashMap(values: map<string, string>, order: seq<string>) returns (ordered: seq<(string, string)>)
    requires Enumerates(order, values)
    ensures ordered == HashInput(values, order)
  {
    var keys: seq<string> := [];
    for i := 0 to |order|
      invariant keys == order[..i]
    {
      keys := keys + [order[i]];
    }
    assert keys == order;
    keys := Sort(keys);
    ordered := [];
    for i := 0 to |keys|
      invariant |ordered| == i
      invariant forall k | 0 <= k < i :: keys[k] in values && ordered[k] == (keys[k], values[keys[k]])
    {
      assert keys[i] in Elements(keys);
      ordered := ordered + [(keys[i], values[keys[i]])];
    }
  }

  /** The hashed list is a function of the map's contents, and determines them: equal lists
      exactly when equal maps, whatever order each map was iterated in. */
  lemma HashInputDeterminesMap(m: map<string, string>, order: seq<string>, m': map<string, string>, order': seq<string>)
    requires Enumerates(order, m) && Enumerates(order', m')
    ensures HashInput(m, order) == HashInput(m', order') <==> m == m'
  {
    if m == m' {
      SortForgetsOrder(order, order');
    }
    if HashInput(m, order) == HashInput(m', order') {
      HashInputHolds(m, order);
      HashInputHolds(m', order');
      var pairs := HashInput(m, order);
      hide HashInput;
      forall k ensures k in m <==> k in m' {
        assert (exists i :: 0 <= i < |pairs| && pairs[i].0 == k) <==> k in m;
      }
      assert m.Keys == m'.Keys;
      forall k | k in m ensures m[k] == m'[k] {
        var i :| 0 <= i < |pairs| && pairs[i].0 == k;
      }
    }
  }

  /** The list has every pair of the map, and no other. */
  lemma HashInputHolds(m: map<string, string>, order: seq<string>)
    requires Enumerates(order, m)
    ensures var pairs := HashInput(m, order);
            && (forall i | 0 <= i < |pairs| :: pairs[i].0 in m && pairs[i].1 == m[pairs[i].0])
            && (forall k | k in m :: exists i :: 0 <= i < |pairs| && pairs[i].0 == k)
  {
    var keys, pairs := Sort(order), HashInput(m, order);
    assert Elements(keys) == m.Keys;
    forall i | 0 <= i < |pairs| ensures pairs[i].0 in m && pairs[i].1 == m[pairs[i].0] {
      assert keys[i] in Elements(keys);
    }
    forall k | k in m ensures exists i :: 0 <= i < |pairs| && pairs[i].0 == k {
      assert k in Elements(keys);
      var i :| 0 <= i < |keys| && keys[i] == k;
      assert pairs[i].0 == k;
    }
  }
}
