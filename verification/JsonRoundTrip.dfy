// What the writer prints, the reader reads back.
module JsonRoundTrip {
  import opened Wrappers
  import opened JsonText
  import opened JsonParser
  import opened JsonWriter
  import Grammar = JsonGrammar

  // ----- What a document means, and which documents are meant to survive -----

  function ReadNumber(n: int): Json {
    if MIN_INTEGER <= n <= MAX_INTEGER then JInteger(n) else JLong(n)
  }

  function ValueOf(d: Doc): Json
    decreases d, Width(d) + 1
  {
    match d
    case DString(s) => JString(s)
    case DBool(b) => JBool(b)
    case DNumber(n) => ReadNumber(n)
    case DDouble(token) => JDouble(token)
    case DObject(fields) => JObject(FieldsOf(d, |fields|))
  }

  /** The first n members; a later one replaces an earlier one of the same name. */
  function FieldsOf(d: Doc, n: nat): map<Str, Json>
    requires d.DObject? && n <= |d.fields|
    decreases d, n
  {
    if n == 0 then map[] else FieldsOf(d, n - 1)[d.fields[n - 1].key.name := ValueOf(d.fields[n - 1].value)]
  }

  /** Free of quote and backslash. */
  predicate Plain(name: Str) {
    forall i | 0 <= i < |name| :: name[i] != QUOTE && name[i] != BACKSLASH
  }

  /** A number token that Double.parseDouble reads. */
  predicate IsDoubleToken(token: Str) {
    && (forall i | 0 <= i < |token| :: IsNumberUnit(token[i]))
    && (exists i :: 0 <= i < |token| && IsFloatUnit(token[i]))
    && IsDoubleText(token)
  }

  predicate IsLong(n: int) {
    MIN_LONG <= n <= MAX_LONG
  }

  predicate Printable(d: Doc) {
    match d
    case DString(_) => true
    case DBool(_) => true
    case DNumber(n) => IsLong(n)
    case DDouble(token) => IsDoubleToken(token)
    case DObject(fields) =>
      forall i | 0 <= i < |fields| :: (fields[i].key.Raw? ==> Plain(fields[i].key.name)) && Printable(fields[i].value)
  }

  // ----- A document as a text of the grammar -----

  function EscapePiece(u: Unit): Grammar.Piece {
    if u == BACKSLASH || u == QUOTE then Grammar.Short(u)
    else if u == NEWLINE then Grammar.Short(LOWER_N)
    else if u == RETURN then Grammar.Short(LOWER_R)
    else if u == TAB then Grammar.Short(LOWER_T)
    else Grammar.Plain(u)
  }

  function EscapePieces(s: Str): seq<Grammar.Piece> {
    if s == [] then [] else [EscapePiece(s[0])] + EscapePieces(s[1..])
  }

  function RawPieces(s: Str): seq<Grammar.Piece> {
    if s == [] then [] else [Grammar.Plain(s[0])] + RawPieces(s[1..])
  }

  lemma {:induction false} EscapePiecesSpell(s: Str)
    ensures Grammar.PiecesOk(EscapePieces(s))
    ensures Grammar.PiecesText(EscapePieces(s)) == EscapeEach(s)
    ensures forall standard :: Grammar.TextOf(EscapePieces(s), standard) == s
  {
    if s != [] {
      var pieces := EscapePieces(s);
      assert pieces[0] == EscapePiece(s[0]) && pieces[1..] == EscapePieces(s[1..]);
      EscapePiecesSpell(s[1..]);
      assert s == [s[0]] + s[1..];
    }
  }

  lemma {:induction false} RawPiecesSpell(s: Str)
    ensures Grammar.PiecesText(RawPieces(s)) == s && Grammar.TextOf(RawPieces(s), false) == s
    ensures Plain(s) ==> Grammar.PiecesOk(RawPieces(s))
  {
    if s != [] {
      var pieces := RawPieces(s);
      assert pieces[0] == Grammar.Plain(s[0]) && pieces[1..] == RawPieces(s[1..]);
      RawPiecesSpell(s[1..]);
      assert s == [s[0]] + s[1..];
    }
  }

  function KeyPieces(key: Key): seq<Grammar.Piece> {
    match key
    case Raw(name) => RawPieces(name)
    case Escaped(name) => EscapePieces(name)
  }

  lemma KeySpells(key: Key)
    requires key.Raw? ==> Plain(key.name)
    ensures Grammar.PiecesOk(KeyPieces(key))
    ensures Grammar.PiecesText(KeyPieces(key)) == KeyText(key) && Grammar.TextOf(KeyPieces(key), false) == key.name
  {
    match key
    case Raw(name) => RawPiecesSpell(name);
    case Escaped(name) => EscapePiecesSpell(name);
  }

  function TreeOf(d: Doc): Grammar.Tree {
    match d
    case DString(s) => Grammar.TString(EscapePieces(s))
    case DBool(b) => Grammar.TBool(b)
    case DNumber(n) => Grammar.TNumber(Decimal(n))
    case DDouble(token) => Grammar.TNumber(token)
    case DObject(fields) =>
      Grammar.TObject(seq(|fields|, i requires 0 <= i < |fields| =>
        Grammar.Member([], KeyPieces(fields[i].key), [], [], TreeOf(fields[i].value), [])), [])
  }

  lemma MemberSpells(k: Str, text: Str, tail: Str)
    ensures [] + (([QUOTE] + (k + [QUOTE])) + ([] + ([COLON] + ([] + (text + ([] + tail))))))
         == [QUOTE] + k + [QUOTE, COLON] + text + tail
  {
  }

  lemma DecimalReads(n: int)
    requires IsLong(n)
    ensures Decimal(n) != [] && forall i | 0 <= i < |Decimal(n)| :: IsNumberUnit(Decimal(n)[i])
    ensures NumberOf(Decimal(n)) == Ok(ReadNumber(n))
  {
    var text := Decimal(n);
    hide Digits;
    assert text[0] == MINUS || IsDigit(text[0]);
    forall i | 0 <= i < |text| ensures IsNumberUnit(text[i]) && !IsFloatUnit(text[i]) {
      assert text[i] == MINUS || IsDigit(text[i]);
    }
    DecimalRoundTrip(n);
  }

  lemma LeafSpells(d: Doc)
    requires Printable(d) && !d.DObject?
    ensures Grammar.Readable(TreeOf(d)) && Grammar.NumbersFit(TreeOf(d))
    ensures Grammar.Write(TreeOf(d)) == Print(d) && Grammar.ValueOfTree(TreeOf(d), false) == ValueOf(d)
  {
    match d {
      case DString(s) =>
        EscapePiecesSpell(s);
        Regroup([QUOTE], EscapeEach(s), [QUOTE]);
      case DBool(b) =>
      case DNumber(n) => DecimalReads(n);
      case DDouble(token) =>
    }
  }

  /** A printed document is the text of a tree, with the same meaning. */
  lemma {:induction false} DocSpells(d: Doc)
    requires Printable(d)
    ensures Grammar.Readable(TreeOf(d)) && Grammar.NumbersFit(TreeOf(d))
    ensures Grammar.Write(TreeOf(d)) == Print(d) && Grammar.ValueOfTree(TreeOf(d), false) == ValueOf(d)
    decreases d, 0
  {
    if d.DObject? {
      forall i | 0 <= i < |d.fields| ensures FieldSpelled(d, i) {
        FieldSpells(d, i);
      }
      if d.fields != [] {
        MembersSpell(d, 0);
      }
      MembersMean(d, |d.fields|);
      AllFieldsSpelled(d);
    } else {
      LeafSpells(d);
    }
  }

  ghost predicate FieldSpelled(d: Doc, i: nat)
    requires d.DObject? && i < |d.fields|
  {
    var f := d.fields[i];
    && Grammar.PiecesOk(KeyPieces(f.key))
    && Grammar.PiecesText(KeyPieces(f.key)) == KeyText(f.key) && Grammar.TextOf(KeyPieces(f.key), false) == f.key.name
    && Grammar.Readable(TreeOf(f.value)) && Grammar.NumbersFit(TreeOf(f.value))
    && Grammar.Write(TreeOf(f.value)) == Print(f.value) && Grammar.ValueOfTree(TreeOf(f.value), false)
        == ValueOf(f.value)
  }

  lemma FieldSpells(d: Doc, i: nat)
    requires Printable(d) && d.DObject? && i < |d.fields|
    ensures FieldSpelled(d, i)
    decreases d, 0, 0
  {
    var f := d.fields[i];
    assert Printable(f.value) && (f.key.Raw? ==> Plain(f.key.name));
    KeySpells(f.key);
    DocSpells(f.value);
  }

  lemma TreeOnce(d: Doc)
    requires d.DObject?
    ensures TreeOf(d).TObject? && |TreeOf(d).members| == |d.fields| && TreeOf(d).pad == []
    ensures forall i | 0 <= i < |d.fields| ::
      TreeOf(d).members[i] == Grammar.Member([], KeyPieces(d.fields[i].key), [], [], TreeOf(d.fields[i].value), [])
  {
  }

  lemma {:induction false} MembersSpell(d: Doc, i: nat)
    requires d.DObject? && i < |d.fields| && forall k | 0 <= k < |d.fields| :: FieldSpelled(d, k)
    ensures TreeOf(d).TObject? && |TreeOf(d).members| == |d.fields|
    ensures Grammar.WriteMembers(TreeOf(d), i) == PrintFrom(d, i)
    decreases |d.fields| - i
  {
    TreeOnce(d);
    if i + 1 < |d.fields| {
      MembersSpell(d, i + 1);
    }
    var f := d.fields[i];
    var tail := if i + 1 == |d.fields| then [CLOSE_BRACE] else [COMMA] + PrintFrom(d, i + 1);
    MemberSpells(KeyText(f.key), Print(f.value), tail);
    assert FieldSpelled(d, i);
    PrintFromOnce(d.fields, i);
    assert DObject(d.fields) == d;
    hide Print, PrintFrom, KeyText, KeyPieces, TreeOf, EscapePieces;
  }

  lemma {:induction false} MembersMean(d: Doc, n: nat)
    requires d.DObject? && n <= |d.fields| && forall k | 0 <= k < |d.fields| :: FieldSpelled(d, k)
    ensures TreeOf(d).TObject? && |TreeOf(d).members| == |d.fields|
    ensures Grammar.MembersOf(TreeOf(d), n, false) == FieldsOf(d, n)
    decreases n
  {
    hide *;
    TreeOnce(d);
    NothingMeans(d);
    if n > 0 {
      MembersMean(d, n - 1);
      MemberMeans(d, n - 1);
    }
  }

  lemma NothingMeans(d: Doc)
    requires d.DObject? && TreeOf(d).TObject?
    ensures Grammar.MembersOf(TreeOf(d), 0, false) == FieldsOf(d, 0)
  {
  }

  lemma MemberMeans(d: Doc, i: nat)
    requires d.DObject? && i < |d.fields| && FieldSpelled(d, i)
    requires TreeOf(d).TObject? && |TreeOf(d).members| == |d.fields|
    requires Grammar.MembersOf(TreeOf(d), i, false) == FieldsOf(d, i)
    ensures Grammar.MembersOf(TreeOf(d), i + 1, false) == FieldsOf(d, i + 1)
  {
    TreeOnce(d);
    hide KeyPieces, TreeOf, ValueOf;
  }

  lemma AllFieldsSpelled(d: Doc)
    requires d.DObject? && forall k | 0 <= k < |d.fields| :: FieldSpelled(d, k)
    ensures Grammar.Readable(TreeOf(d)) && Grammar.NumbersFit(TreeOf(d))
  {
    TreeOnce(d);
    hide TreeOf, KeyPieces;
    var t := TreeOf(d);
    forall i | 0 <= i < |t.members|
      ensures Grammar.PiecesOk(t.members[i].name) && Grammar.Readable(t.members[i].value)
          && Grammar.NumbersFit(t.members[i].value)
    {
      assert FieldSpelled(d, i);
    }
  }

  // ----- Strings and keys -----

  /** parseString on an escaped string, whatever follows it: the string comes back and the position
      stops right behind the closing quote. */
  lemma EscapedStringRoundTrip(x: Str, rest: Str)
    ensures StringAt([QUOTE] + Escape(x) + [QUOTE] + rest, 0) == Ok((x, |Escape(x)| + 2))
  {
    EscapeIsPerUnit(x);
    EscapePiecesSpell(x);
    var s := [QUOTE] + Escape(x) + [QUOTE] + rest;
    assert Grammar.At(s, 0, Grammar.Quoted(EscapePieces(x)));
    Grammar.QuotedReads(s, 0, EscapePieces(x));
  }

  /** A string that ends in its quote is never longer than the text it was read from. */
  lemma {:induction false} NeverLonger(s: Str, p: nat, sofar: Str)
    requires StringBody(s, p, sofar).Ok? && StringBody(s, p, sofar).value.1 < |s|
    ensures |StringBody(s, p, sofar).value.0| + p + 1 <= |sofar| + StringBody(s, p, sofar).value.1
    decreases |s| - p
  {
    if s[p] == BACKSLASH {
      var (units, q) := EscapeAt(s, p + 1).value;
      NeverLonger(s, q, sofar + units);
    } else if s[p] != QUOTE {
      NeverLonger(s, p + 1, sofar + [s[p]]);
    }
  }

  /** Where n characters were read as n characters, there was no quote and no escape. */
  lemma {:induction false} UnescapedStretch(s: Str, p: nat, sofar: Str, n: nat)
    requires p + n + 1 < |s| && StringBody(s, p, sofar).Ok?
    requires StringBody(s, p, sofar).value.1 == p + n + 1 && |StringBody(s, p, sofar).value.0| == |sofar| + n
    ensures forall i | p <= i < p + n :: s[i] != QUOTE && s[i] != BACKSLASH
    decreases n
  {
    if n > 0 {
      if s[p] == BACKSLASH {
        var (units, q) := EscapeAt(s, p + 1).value;
        NeverLonger(s, q, sofar + units);
      } else {
        UnescapedStretch(s, p + 1, sofar + [s[p]], n - 1);
      }
    }
  }

  /** A key, which the writer does not escape, reads back exactly when it is plain. */
  lemma RawKeyRoundTripExact(key: Str, rest: Str)
    ensures StringAt([QUOTE] + key + [QUOTE, COLON] + rest, 0) == Ok((key, |key| + 2)) <==> Plain(key)
  {
    var s := [QUOTE] + key + [QUOTE, COLON] + rest;
    assert forall i | 0 <= i < |key| :: s[i + 1] == key[i];
    if Plain(key) {
      RawPiecesSpell(key);
      assert Grammar.At(s, 0, Grammar.Quoted(RawPieces(key)));
      Grammar.QuotedReads(s, 0, RawPieces(key));
    }
    if StringAt(s, 0) == Ok((key, |key| + 2)) {
      UnescapedStretch(s, 1, [], |key|);
      forall i | 0 <= i < |key| ensures key[i] != QUOTE && key[i] != BACKSLASH {
        assert s[i + 1] == key[i];
      }
    }
  }

  /** The shortest key it fails for. */
  lemma QuoteInKeyLost(rest: Str)
    ensures StringAt([QUOTE] + [QUOTE] + [QUOTE, COLON] + rest, 0) != Ok(([QUOTE], 3))
  {
    var key: Str := [QUOTE];
    assert key[0] == QUOTE;
    RawKeyRoundTripExact(key, rest);
  }

  // ----- Documents -----

  /** Every printed document reads back as what it means, up to and not past its own end; a number
      must not be followed by more number characters. */
  lemma DocReads(s: Str, p: nat, d: Doc)
    requires Printable(d) && Grammar.At(s, p, Print(d)) && Grammar.EndsAt(s, p + |Print(d)|)
    ensures ValueAt(s, p) == Ok((ValueOf(d), p + |Print(d)|))
  {
    hide *;
    DocSpells(d);
    Grammar.TreeReads(s, p, TreeOf(d));
    Grammar.AnswerIs(TreeOf(d), p + |Print(d)|);
  }

  lemma BracesStay(s: Str)
    requires |s| >= 2 && s[0] == OPEN_BRACE && s[|s| - 1] == CLOSE_BRACE
    ensures !IsBlank(s) && Trim(s) == s
  {
    assert !IsWhitespace(s[0]);
  }

  /** parseObject gives back every printed object. */
  lemma PrintedObjectReadsBack(d: Doc)
    requires d.DObject? && Printable(d)
    ensures ObjectOf(Print(d)) == Ok(FieldsOf(d, |d.fields|))
  {
    hide *;
    var s := Print(d);
    WholeText(s);
    DocReads(s, 0, d);
    ObjectOnce(d);
    ObjectText(d.fields);
    assert DObject(d.fields) == d;
    BracesStay(s);
    OpenObject(s, ValueOf(d), |s|);
  }

  lemma ObjectOnce(d: Doc)
    requires d.DObject?
    ensures ValueOf(d) == JObject(FieldsOf(d, |d.fields|))
  {
  }

  lemma WholeText(s: Str)
    ensures Grammar.At(s, 0, s) && Grammar.EndsAt(s, |s|)
  {
    assert s[0..|s|] == s;
  }

  lemma OpenObject(s: Str, value: Json, end: nat)
    requires !IsBlank(s) && Trim(s) == s && ValueAt(s, 0) == Ok((value, end)) && value.JObject?
    ensures ObjectOf(s) == Ok(value.fields)
  {
  }

  // ----- object(...) -----

  function ReadObject(o: Object): Json
    requires !o.Null?
  {
    match o
    case OString(s) => JString(s)
    case OBoolean(b) => JBool(b)
    case ONumber(n) => ReadNumber(n)
    case OOther(text) => JDouble(text)
  }

  /** Keys are strings free of quote and backslash; numbers are longs; any other value prints as a
      double. */
  predicate GoodPair(key: Object, val: Object) {
    && (key.Null? || key.OString?) && Plain(KeyName(key))
    && (val.ONumber? ==> IsLong(val.n)) && (val.OOther? ==> IsDoubleToken(val.text))
  }

  ghost predicate GoodPairs(kvPairs: seq<Object>) {
    && |kvPairs| % 2 == 0
    && forall i: nat :: 2 * i + 1 < |kvPairs| ==> GoodPairAt(kvPairs, i)
  }

  predicate GoodPairAt(kvPairs: seq<Object>, i: nat)
    requires 2 * i + 1 < |kvPairs|
  {
    GoodPair(KeyAt(kvPairs, i), ValueOfPair(kvPairs, i))
  }

  function KeyAt(kvPairs: seq<Object>, i: nat): Object
    requires 2 * i + 1 < |kvPairs|
  {
    kvPairs[2 * i]
  }

  function ValueOfPair(kvPairs: seq<Object>, i: nat): Object
    requires 2 * i + 1 < |kvPairs|
  {
    kvPairs[2 * i + 1]
  }

  function With(m: map<Str, Json>, key: Object, val: Object): map<Str, Json>
    requires key.Null? || key.OString?
  {
    if val.Null? then m else m[KeyName(key) := ReadObject(val)]
  }

  /** The map that the first n pairs describe: null values are left out, a later pair replaces an
      earlier one with the same key. */
  ghost function PairsMap(kvPairs: seq<Object>, n: nat): map<Str, Json>
    requires 2 * n <= |kvPairs| && GoodPairs(kvPairs)
  {
    if n == 0 then map[]
    else
      assert GoodPairAt(kvPairs, n - 1);
      With(PairsMap(kvPairs, n - 1), KeyAt(kvPairs, n - 1), ValueOfPair(kvPairs, n - 1))
  }

  lemma {:induction false} FieldsOfPrefix(fields: seq<Field>, f: Field, n: nat)
    requires n <= |fields|
    ensures FieldsOf(DObject(fields + [f]), n) == FieldsOf(DObject(fields), n)
  {
    if n > 0 {
      FieldsOfPrefix(fields, f, n - 1);
      assert (fields + [f])[n - 1] == fields[n - 1];
    }
  }

  lemma OneMoreField(fields: seq<Field>, f: Field)
    requires Printable(DObject(fields)) && Printable(f.value) && (f.key.Raw? ==> Plain(f.key.name))
    ensures Printable(DObject(fields + [f]))
    ensures FieldsOf(DObject(fields + [f]), |fields| + 1)
         == FieldsOf(DObject(fields), |fields|)[f.key.name := ValueOf(f.value)]
  {
    FieldsOfPrefix(fields, f, |fields|);
    hide ValueOf, Plain;
    assert (fields + [f])[|fields|] == f;
  }

  lemma GoodValue(key: Object, val: Object)
    requires GoodPair(key, val) && !val.Null?
    ensures Printable(ValueDoc(val)) && ValueOf(ValueDoc(val)) == ReadObject(val)
  {
  }

  lemma {:induction false} MembersAreGood(kvPairs: seq<Object>, n: nat)
    requires GoodPairs(kvPairs) && 2 * n <= |kvPairs|
    ensures Members(kvPairs, n).Ok?
    ensures var d := DObject(Members(kvPairs, n).value);
      Printable(d) && FieldsOf(d, |d.fields|) == PairsMap(kvPairs, n)
  {
    if n == 0 {
      assert Members(kvPairs, n).value == [];
    } else {
      hide *;
      var m := n - 1;
      MembersAreGood(kvPairs, m);
      PairGiven(kvPairs, m);
      MembersOnce(kvPairs, m);
      NextMember(Members(kvPairs, m).value, kvPairs[2 * m], kvPairs[2 * m + 1], PairsMap(kvPairs, m));
    }
  }

  lemma PairGiven(kvPairs: seq<Object>, n: nat)
    requires GoodPairs(kvPairs) && 2 * n + 1 < |kvPairs|
    ensures GoodPair(kvPairs[2 * n], kvPairs[2 * n + 1]) && (kvPairs[2 * n].Null? || kvPairs[2 * n].OString?)
    ensures PairsMap(kvPairs, n + 1) == With(PairsMap(kvPairs, n), kvPairs[2 * n], kvPairs[2 * n + 1])
  {
    assert GoodPairAt(kvPairs, n);
  }

  lemma NextMember(fields: seq<Field>, key: Object, val: Object, m: map<Str, Json>)
    requires GoodPair(key, val) && Printable(DObject(fields)) && FieldsOf(DObject(fields), |fields|) == m
    ensures var d := DObject(fields + Member(key, val));
      Printable(d) && FieldsOf(d, |d.fields|) == With(m, key, val)
  {
    if val.Null? {
      assert fields + [] == fields;
    } else {
      GoodValue(key, val);
      OneMoreField(fields, Field(Raw(KeyName(key)), ValueDoc(val)));
    }
    hide Printable, FieldsOf, ReadObject, ValueDoc, ValueOf;
  }

  lemma EvenPairs(kvPairs: seq<Object>)
    requires GoodPairs(kvPairs)
    ensures 2 * (|kvPairs| / 2) == |kvPairs| && AllMembers(kvPairs) == Members(kvPairs, |kvPairs| / 2)
  {
    hide Members;
  }

  /** What object(...) writes, parseObject reads back as the map of its non-null pairs. */
  lemma ObjectRoundTrip(kvPairs: seq<Object>)
    requires GoodPairs(kvPairs)
    ensures AllMembers(kvPairs).Ok?
    ensures ObjectOf(Print(DObject(AllMembers(kvPairs).value))) == Ok(PairsMap(kvPairs, |kvPairs| / 2))
  {
    hide *;
    EvenPairs(kvPairs);
    MembersAreGood(kvPairs, |kvPairs| / 2);
    PrintedObjectReadsBack(DObject(AllMembers(kvPairs).value));
  }

  ghost predicate NamesKey(kvPairs: seq<Object>, i: nat, key: Str)
    requires 2 * i + 1 < |kvPairs| && GoodPairs(kvPairs)
  {
    assert GoodPairAt(kvPairs, i);
    !ValueOfPair(kvPairs, i).Null? && KeyName(KeyAt(kvPairs, i)) == key
  }

  /** A key is in that map exactly when a non-null pair names it. */
  lemma {:induction false} PairsMapKeys(kvPairs: seq<Object>, n: nat, key: Str)
    requires GoodPairs(kvPairs) && 2 * n <= |kvPairs|
    ensures key in PairsMap(kvPairs, n) <==> exists i: nat :: i < n && NamesKey(kvPairs, i, key)
  {
    if n > 0 {
      PairsMapKeys(kvPairs, n - 1, key);
      PairsMapOnce(kvPairs, n - 1, key);
      hide *;
      assert NamesKey(kvPairs, n - 1, key) ==> key in PairsMap(kvPairs, n);
    }
  }

  /** The last non-null pair that names a key decides its value; with distinct keys there is only
      one. */
  lemma {:induction false} PairsMapLast(kvPairs: seq<Object>, n: nat, i: nat, key: Str)
    requires GoodPairs(kvPairs) && 2 * n <= |kvPairs|
    requires i < n && NamesKey(kvPairs, i, key) && forall j: nat :: i < j < n ==> !NamesKey(kvPairs, j, key)
    ensures !ValueOfPair(kvPairs, i).Null?
    ensures key in PairsMap(kvPairs, n) && PairsMap(kvPairs, n)[key] == ReadObject(ValueOfPair(kvPairs, i))
    decreases n
  {
    hide *;
    PairsMapOnce(kvPairs, n - 1, key);
    if i < n - 1 {
      PairsMapLast(kvPairs, n - 1, i, key);
    }
  }

  lemma PairsMapOnce(kvPairs: seq<Object>, n: nat, key: Str)
    requires GoodPairs(kvPairs) && 2 * n + 1 < |kvPairs|
    ensures NamesKey(kvPairs, n, key) ==> !ValueOfPair(kvPairs, n).Null?
    ensures NamesKey(kvPairs, n, key) ==>
      key in PairsMap(kvPairs, n + 1) && PairsMap(kvPairs, n + 1)[key] == ReadObject(ValueOfPair(kvPairs, n))
    ensures !NamesKey(kvPairs, n, key) ==>
      && (key in PairsMap(kvPairs, n + 1) <==> key in PairsMap(kvPairs, n))
      && (key in PairsMap(kvPairs, n) ==> PairsMap(kvPairs, n + 1)[key] == PairsMap(kvPairs, n)[key])
  {
    assert GoodPairAt(kvPairs, n);
    hide GoodPair, ReadObject;
  }

  /** Integers come back as Integer in the 32-bit range, as Long in the 64-bit range, and not at all
      beyond. */
  lemma NumbersExactly(n: int)
    ensures NumberOf(Decimal(n)) ==
              if -0x8000_0000 <= n < 0x8000_0000 then Ok(JInteger(n))
              else if -0x8000_0000_0000_0000 <= n < 0x8000_0000_0000_0000 then Ok(JLong(n))
              else Err(NumberFormat)
  {
    var text := Decimal(n);
    LongsExactly(n);
    hide Digits, ParseLong;
    forall i | 0 <= i < |text| ensures !IsFloatUnit(text[i]) {
      assert text[i] == MINUS || IsDigit(text[i]);
    }
  }

  /** What each kind of argument comes back as. */
  lemma ReadObjectMeans(o: Object)
    requires !o.Null?
    ensures o.OString? ==> ReadObject(o) == JString(o.s)
    ensures o.OBoolean? ==> ReadObject(o) == JBool(o.b)
    ensures o.OOther? ==> ReadObject(o) == JDouble(o.text)
    ensures o.ONumber? && IsLong(o.n) ==> NumberOf(Decimal(o.n)) == Ok(ReadObject(o))
  {
    if o.ONumber? {
      NumbersExactly(o.n);
    }
    hide Decimal, NumberOf;
  }
}
