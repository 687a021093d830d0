// The JSON writer: a grammar of the documents the SDK sends, and the routines that append them to a
// StringBuilder piece by piece.
module JsonWriter {
  import opened Wrappers
  import opened JsonText

  // ----- Documents and how they are spelled -----

  /** The text between the quotes of a key: as given (field, object) or escaped (mapField). */
  datatype Key = Raw(name: Str) | Escaped(name: Str)

  datatype Field = Field(key: Key, value: Doc)

  /** A double is the token that Double.toString gives. */
  datatype Doc =
    | DString(s: Str)
    | DBool(b: bool)
    | DNumber(n: int)
    | DDouble(token: Str)
    | DObject(fields: seq<Field>)

  function KeyText(key: Key): Str {
    match key
    case Raw(name) => name
    case Escaped(name) => EscapeEach(name)
  }

  function Label(key: Key): Str {
    [QUOTE] + KeyText(key) + [QUOTE, COLON]
  }

  function Width(d: Doc): nat {
    if d.DObject? then |d.fields| + 1 else 0
  }

  /** The grammar: members separated by commas, between braces. */
  function Print(d: Doc): Str
    decreases d, Width(d)
  {
    match d
    case DString(s) => [QUOTE] + EscapeEach(s) + [QUOTE]
    case DBool(b) => if b then TRUE_TEXT else FALSE_TEXT
    case DNumber(n) => Decimal(n)
    case DDouble(token) => token
    case DObject(fields) => [OPEN_BRACE] + (if fields == [] then [CLOSE_BRACE] else PrintFrom(d, 0))
  }

  /** Member i and all that follows it, the closing brace included. */
  function PrintFrom(d: Doc, i: nat): Str
    requires d.DObject? && i < |d.fields|
    decreases d, |d.fields| - i
  {
    var f := d.fields[i];
    Label(f.key) + Print(f.value)
    + (if i + 1 == |d.fields| then [CLOSE_BRACE] else [COMMA] + PrintFrom(d, i + 1))
  }

  // ----- Documents piece by piece -----

  /** A member as the writer appends it, with a comma after it. */
  function Entry(f: Field): (s: Str)
    ensures s != [] && s[|s| - 1] == COMMA
  {
    Label(f.key) + Print(f.value) + [COMMA]
  }

  function Entries(fields: seq<Field>): (s: Str)
    ensures s == [] <==> fields == []
    ensures fields != [] ==> s[|s| - 1] == COMMA
  {
    if fields == [] then [] else Entries(fields[..|fields| - 1]) + Entry(fields[|fields| - 1])
  }

  lemma EntriesSnoc(fields: seq<Field>, f: Field)
    ensures Entries(fields + [f]) == Entries(fields) + Entry(f)
  {
    assert (fields + [f])[..|fields|] == fields;
  }

  function DropLast(s: Str): Str
    requires s != []
  {
    s[..|s| - 1]
  }

  lemma PrintFromOnce(fields: seq<Field>, i: nat)
    requires i < |fields|
    ensures PrintFrom(DObject(fields), i) == Label(fields[i].key) + Print(fields[i].value)
      + (if i + 1 == |fields| then [CLOSE_BRACE] else [COMMA] + PrintFrom(DObject(fields), i + 1))
  {
  }

  lemma EntriesOnce(fields: seq<Field>, i: nat)
    requires i < |fields|
    ensures Entries(fields[..i + 1]) == Entries(fields[..i]) + (Label(fields[i].key) + Print(fields[i].value) + [COMMA])
  {
    assert fields[..i + 1] == fields[..i] + [fields[i]];
    EntriesSnoc(fields[..i], fields[i]);
    hide Entries, Label, Print;
  }

  /** Appending every member with its comma and cutting the last comma gives the grammar's text. */
  lemma {:induction false} TrimmedEntries(fields: seq<Field>, i: nat)
    requires i < |fields|
    ensures Entries(fields[..i]) + PrintFrom(DObject(fields), i) == DropLast(Entries(fields)) + [CLOSE_BRACE]
    decreases |fields| - i
  {
    hide *;
    var before, bare := Entries(fields[..i]), Label(fields[i].key) + Print(fields[i].value);
    PrintFromOnce(fields, i);
    EntriesOnce(fields, i);
    Regroup(before, bare, [COMMA]);
    if i + 1 == |fields| {
      assert fields[..i + 1] == fields;
      Regroup(before, bare, [CLOSE_BRACE]);
      CutLast(before + bare, [COMMA]);
    } else {
      var rest := PrintFrom(DObject(fields), i + 1);
      TrimmedEntries(fields, i + 1);
      Regroup(bare, [COMMA], rest);
      Regroup(before, bare + [COMMA], rest);
    }
  }

  lemma CutLast(s: Str, last: Str)
    requires |last| == 1
    ensures DropLast(s + last) == s
  {
  }

  lemma ObjectText(fields: seq<Field>)
    ensures Print(DObject(fields))
         == [OPEN_BRACE] + (if fields == [] then [] else DropLast(Entries(fields))) + [CLOSE_BRACE]
  {
    if fields == [] {
      assert [OPEN_BRACE] + [] + [CLOSE_BRACE] == [OPEN_BRACE] + [CLOSE_BRACE];
    } else {
      TrimmedEntries(fields, 0);
      assert fields[..0] == [];
      assert Entries([]) == [];
      assert Print(DObject(fields)) == [OPEN_BRACE] + PrintFrom(DObject(fields), 0);
      hide *;
      assert [] + PrintFrom(DObject(fields), 0) == PrintFrom(DObject(fields), 0);
      Regroup([OPEN_BRACE], DropLast(Entries(fields)), [CLOSE_BRACE]);
    }
  }

  // ----- The writer as the code runs it -----

  class StringBuilder {
    var text: Str

    constructor ()
      ensures text == []
    {
      text := [];
    }

    method Append(s: Str)
      modifies this
      ensures text == old(text) + s
    {
      text := text + s;
    }

    method SetLength(n: nat)
      requires n <= |text|
      modifies this
      ensures text == old(text)[..n]
    {
      text := text[..n];
    }
  }

  /** A null string is written as an empty one. */
  function OrEmpty(s: Option<Str>): Str {
    if s.None? then [] else s.value
  }

  method EscapeText(s: Option<Str>) returns (r: Str)
    ensures r == EscapeEach(OrEmpty(s))
  {
    if s.None? {
      return [];
    }
    EscapeIsPerUnit(s.value);
    r := Escape(s.value);
  }

  method StringField(sb: StringBuilder, key: Str, value: Option<Str>)
    modifies sb
    ensures sb.text == old(sb.text) + Entry(Field(Raw(key), DString(OrEmpty(value))))
  {
    hide EscapeEach, OrEmpty;
    sb.Append([QUOTE] + key + [QUOTE, COLON, QUOTE]);
    var escaped := EscapeText(value);
    sb.Append(escaped + [QUOTE, COMMA]);
    assert Print(DString(OrEmpty(value))) == [QUOTE] + escaped + [QUOTE];
    assert Label(Raw(key)) == [QUOTE] + key + [QUOTE, COLON];
  }

  /** For an int and for a long alike. */
  method NumberField(sb: StringBuilder, key: Str, value: int)
    modifies sb
    ensures sb.text == old(sb.text) + Entry(Field(Raw(key), DNumber(value)))
  {
    hide Decimal;
    sb.Append([QUOTE] + key + [QUOTE, COLON]);
    sb.Append(Decimal(value) + [COMMA]);
    assert Label(Raw(key)) == [QUOTE] + key + [QUOTE, COLON] && Print(DNumber(value)) == Decimal(value);
  }

  method BooleanField(sb: StringBuilder, key: Str, value: bool)
    modifies sb
    ensures sb.text == old(sb.text) + Entry(Field(Raw(key), DBool(value)))
  {
    sb.Append([QUOTE] + key + [QUOTE, COLON]);
    sb.Append((if value then TRUE_TEXT else FALSE_TEXT) + [COMMA]);
  }

  /** A map in the order it is iterated; its values may be null. */
  type StringMap = seq<(Str, Option<Str>)>

  function MapFields(entries: StringMap): (fields: seq<Field>)
    ensures |fields| == |entries|
    ensures forall i | 0 <= i < |fields| :: fields[i] == Field(Escaped(entries[i].0), DString(OrEmpty(entries[i].1)))
  {
    seq(|entries|, i requires 0 <= i < |entries| => Field(Escaped(entries[i].0), DString(OrEmpty(entries[i].1))))
  }

  /** What a map contributes to the object it is a member of: nothing when null or empty. */
  function MapMember(key: Str, entries: Option<StringMap>): seq<Field> {
    if entries.None? || entries.value == [] then [] else [Field(Raw(key), DObject(MapFields(entries.value)))]
  }

  function PairText(k: Str, v: Str): Str {
    [QUOTE] + k + [QUOTE, COLON, QUOTE] + v + [QUOTE, COMMA]
  }

  function MapOpen(key: Str): Str {
    [QUOTE] + key + [QUOTE, COLON, OPEN_BRACE]
  }

  /** The loop of mapField has written the first n pairs behind `head`. */
  ghost predicate PairsWritten(head: Str, entries: StringMap, n: nat, text: Str)
    requires n <= |entries|
  {
    text == head + Entries(MapFields(entries)[..n])
  }

  method MapField(sb: StringBuilder, key: Str, entries: Option<StringMap>)
    modifies sb
    ensures sb.text == old(sb.text) + Entries(MapMember(key, entries))
  {
    hide *;
    if entries.None? || entries.value == [] {
      NoMember(sb.text, key, entries);
      return;
    }
    sb.Append(MapOpen(key));
    ghost var head := sb.text;
    NoPairs(head, entries.value);
    for i := 0 to |entries.value|
      invariant PairsWritten(head, entries.value, i, sb.text)
    {
      var k := EscapeText(Some(entries.value[i].0));
      var v := EscapeText(entries.value[i].1);
      NextPair(head, entries.value, i, sb.text, k, v);
      sb.Append(PairText(k, v));
    }
    AllPairs(old(sb.text), key, entries.value, sb.text);
    sb.SetLength(|sb.text| - 1);
    sb.Append([CLOSE_BRACE, COMMA]);
  }

  lemma CutEnd(a: Str, b: Str)
    requires b != []
    ensures (a + b)[..|a + b| - 1] == a + DropLast(b)
  {
  }

  lemma StringMember(k: Str, v: Str)
    ensures ([QUOTE] + k + [QUOTE, COLON]) + ([QUOTE] + v + [QUOTE]) + [COMMA] == PairText(k, v)
  {
  }

  lemma StringFieldText(f: Field, k: Str, v: Str)
    requires f.value.DString?
    requires k == KeyText(f.key) && v == EscapeEach(f.value.s)
    ensures Label(f.key) == [QUOTE] + k + [QUOTE, COLON] && Print(f.value) == [QUOTE] + v + [QUOTE]
  {
    hide EscapeEach, KeyText;
  }

  lemma NextEntry(fields: seq<Field>, i: nat, k: Str, v: Str)
    requires i < |fields| && fields[i].value.DString?
    requires k == KeyText(fields[i].key) && v == EscapeEach(fields[i].value.s)
    ensures Entries(fields[..i + 1]) == Entries(fields[..i]) + PairText(k, v)
  {
    hide *;
    EntriesOnce(fields, i);
    StringFieldText(fields[i], k, v);
    StringMember(k, v);
  }

  lemma ObjectMember(before: Str, key: Str, inner: Str)
    ensures (before + MapOpen(key)) + inner + [CLOSE_BRACE, COMMA]
         == before + (([QUOTE] + key + [QUOTE, COLON]) + ([OPEN_BRACE] + inner + [CLOSE_BRACE]) + [COMMA])
  {
    var tag := [QUOTE] + key + [QUOTE, COLON];
    assert MapOpen(key) == tag + [OPEN_BRACE];
    assert inner + [CLOSE_BRACE, COMMA] == inner + [CLOSE_BRACE] + [COMMA];
  }

  lemma SingleEntry(f: Field)
    ensures Entries([f]) == Label(f.key) + Print(f.value) + [COMMA]
  {
    assert [f][..0] == [] && Entries([]) == [];
    hide Label, Print;
  }

  /** The entry of a map member, as it is left after the comma of the last pair has been cut. */
  lemma MapEntry(before: Str, key: Str, fields: seq<Field>)
    requires fields != []
    ensures (before + MapOpen(key)) + DropLast(Entries(fields)) + [CLOSE_BRACE, COMMA]
         == before + Entries([Field(Raw(key), DObject(fields))])
  {
    var f := Field(Raw(key), DObject(fields));
    assert Label(f.key) == [QUOTE] + key + [QUOTE, COLON];
    hide *;
    ObjectText(fields);
    SingleEntry(f);
    ObjectMember(before, key, DropLast(Entries(fields)));
  }

  lemma NoMember(before: Str, key: Str, entries: Option<StringMap>)
    requires entries.None? || entries.value == []
    ensures before + Entries(MapMember(key, entries)) == before
  {
    assert Entries([]) == [];
  }

  lemma NoPairs(head: Str, entries: StringMap)
    ensures PairsWritten(head, entries, 0, head)
  {
    assert MapFields(entries)[..0] == [];
  }

  lemma NextPair(head: Str, entries: StringMap, n: nat, text: Str, k: Str, v: Str)
    requires n < |entries| && PairsWritten(head, entries, n, text)
    requires k == EscapeEach(OrEmpty(Some(entries[n].0))) && v == EscapeEach(OrEmpty(entries[n].1))
    ensures PairsWritten(head, entries, n + 1, text + PairText(k, v))
  {
    hide Entries, EscapeEach, MapFields;
    var fields := MapFields(entries);
    NextEntry(fields, n, k, v);
    Regroup(head, Entries(fields[..n]), PairText(k, v));
  }

  lemma AllPairs(before: Str, key: Str, entries: StringMap, text: Str)
    requires entries != [] && PairsWritten(before + MapOpen(key), entries, |entries|, text)
    ensures text != []
    ensures text[..|text| - 1] + [CLOSE_BRACE, COMMA] == before + Entries(MapMember(key, Some(entries)))
  {
    hide Entries, MapFields;
    var fields := MapFields(entries);
    assert fields[..|entries|] == fields;
    CutEnd(before + MapOpen(key), Entries(fields));
    MapEntry(before, key, fields);
  }

  // ----- object(...) -----

  /** An argument of object(...); anything else is written as its toString. */
  datatype Object = Null | OString(s: Str) | OBoolean(b: bool) | ONumber(n: int) | OOther(text: Str)

  datatype WriteError = ClassCast | ArrayIndexOutOfBounds

  /** A null key is appended as the word null. */
  function KeyName(o: Object): Str
    requires o.Null? || o.OString?
  {
    if o.Null? then Java("null") else o.s
  }

  function ValueDoc(o: Object): Doc
    requires !o.Null?
  {
    match o
    case OString(s) => DString(s)
    case OBoolean(b) => DBool(b)
    case ONumber(n) => DNumber(n)
    case OOther(text) => DDouble(text)
  }

  /** What a pair adds to the object: nothing when its value is null. */
  function Member(key: Object, val: Object): seq<Field>
    requires key.Null? || key.OString?
  {
    if val.Null? then [] else [Field(Raw(KeyName(key)), ValueDoc(val))]
  }

  /** The members that the first n pairs stand for, or the exception met on the way; the last key
      may lack its value. */
  function Members(kvPairs: seq<Object>, n: nat): Result<seq<Field>, WriteError>
    requires 2 * n <= |kvPairs| + 1
  {
    if n == 0 then Ok([])
    else
      match Members(kvPairs, n - 1)
      case Err(e) => Err(e)
      case Ok(fields) =>
        var key := kvPairs[2 * n - 2];
        if !key.Null? && !key.OString? then Err(ClassCast)
        else if 2 * n - 1 == |kvPairs| then Err(ArrayIndexOutOfBounds)
        else Ok(fields + Member(key, kvPairs[2 * n - 1]))
  }

  function AllMembers(kvPairs: seq<Object>): Result<seq<Field>, WriteError> {
    Members(kvPairs, (|kvPairs| + 1) / 2)
  }

  /** An absent key is the word null, any other is itself. */
  lemma KeyNameMeans(o: Object)
    requires o.Null? || o.OString?
    ensures KeyName(o) == if o.Null? then [110, 117, 108, 108] else o.s
  {
  }

  predicate BadKey(kvPairs: seq<Object>, i: nat)
  {
    2 * i < |kvPairs| && !kvPairs[2 * i].Null? && !kvPairs[2 * i].OString?
  }

  /** object(...) throws exactly when some key is no string, or else when the last value is missing. */
  lemma ObjectThrowsExactly(kvPairs: seq<Object>)
    ensures AllMembers(kvPairs) == Err(ClassCast) <==> exists i: nat :: BadKey(kvPairs, i)
    ensures AllMembers(kvPairs) == Err(ArrayIndexOutOfBounds) <==>
              |kvPairs| % 2 == 1 && !exists i: nat :: BadKey(kvPairs, i)
  {
    MembersThrow(kvPairs, (|kvPairs| + 1) / 2);
  }

  lemma {:induction false} MembersThrow(kvPairs: seq<Object>, n: nat)
    requires 2 * n <= |kvPairs| + 1
    ensures Members(kvPairs, n) in {Err(ClassCast), Err(ArrayIndexOutOfBounds)} || Members(kvPairs, n).Ok?
    ensures Members(kvPairs, n) == Err(ClassCast) <==> exists i: nat :: i < n && BadKey(kvPairs, i)
    ensures Members(kvPairs, n) == Err(ArrayIndexOutOfBounds) <==>
              2 * n == |kvPairs| + 1 && !exists i: nat :: i < n && BadKey(kvPairs, i)
  {
    if n > 0 {
      var m := n - 1;
      MembersThrow(kvPairs, m);
      if Members(kvPairs, m).Ok? {
        MembersOnce(kvPairs, m);
      } else {
        MembersStop(kvPairs, m, n);
      }
      hide Members, Member;
      if i: nat :| i < m && BadKey(kvPairs, i) {
        assert Members(kvPairs, m) == Err(ClassCast);
      } else if BadKey(kvPairs, m) {
        assert m < n;
      } else {
        assert forall i: nat | i < n :: !BadKey(kvPairs, i) by {
          forall i: nat | i < n ensures !BadKey(kvPairs, i) {
            assert i < m || i == m;
          }
        }
      }
    }
  }

  lemma {:induction false} MembersStop(kvPairs: seq<Object>, n: nat, m: nat)
    requires n <= m && 2 * m <= |kvPairs| + 1
    requires Members(kvPairs, n).Err?
    ensures Members(kvPairs, m) == Members(kvPairs, n)
  {
    if n < m {
      MembersStop(kvPairs, n, m - 1);
    }
  }

  lemma MembersOnce(kvPairs: seq<Object>, n: nat)
    requires 2 * n < |kvPairs| && Members(kvPairs, n).Ok?
    ensures var key := kvPairs[2 * n];
      Members(kvPairs, n + 1) ==
        if !key.Null? && !key.OString? then Err(ClassCast)
        else if 2 * n + 1 == |kvPairs| then Err(ArrayIndexOutOfBounds)
        else Ok(Members(kvPairs, n).value + Member(key, kvPairs[2 * n + 1]))
  {
  }

  lemma MemberEntry(fields: seq<Field>, key: Object, val: Object)
    requires key.Null? || key.OString?
    ensures val.Null? ==> fields + Member(key, val) == fields
    ensures !val.Null? ==>
      Entries(fields + Member(key, val)) == Entries(fields) + Entry(Field(Raw(KeyName(key)), ValueDoc(val)))
  {
    if val.Null? {
      assert fields + [] == fields;
    } else {
      EntriesSnoc(fields, Field(Raw(KeyName(key)), ValueDoc(val)));
    }
    hide Entries, Entry;
  }

  method ValueField(sb: StringBuilder, key: Str, val: Object)
    requires !val.Null?
    modifies sb
    ensures sb.text == old(sb.text) + Entry(Field(Raw(key), ValueDoc(val)))
  {
    hide Decimal, EscapeEach;
    match val {
      case OString(s) => StringField(sb, key, Some(s));
      case OBoolean(b) => BooleanField(sb, key, b);
      case ONumber(n) => NumberField(sb, key, n);
      case OOther(text) => sb.Append([QUOTE] + key + [QUOTE, COLON] + text + [COMMA]);
    }
  }

  /** The loop of object(...) has dealt with the first n pairs. */
  ghost predicate Written(kvPairs: seq<Object>, n: nat, text: Str)
    requires 2 * n <= |kvPairs| + 1
  {
    Members(kvPairs, n).Ok? && text == [OPEN_BRACE] + Entries(Members(kvPairs, n).value)
  }

  lemma WrittenNothing(kvPairs: seq<Object>)
    ensures Written(kvPairs, 0, [] + [OPEN_BRACE])
  {
  }

  lemma WrittenNext(kvPairs: seq<Object>, n: nat, text: Str, key: Object, val: Object)
    requires 2 * n + 1 < |kvPairs| && Written(kvPairs, n, text)
    requires key == kvPairs[2 * n] && val == kvPairs[2 * n + 1]
    requires key.Null? || key.OString?
    ensures val.Null? ==> Written(kvPairs, n + 1, text)
    ensures !val.Null? ==> Written(kvPairs, n + 1, text + Entry(Field(Raw(KeyName(key)), ValueDoc(val))))
  {
    hide Members, Member, Entries, Entry, KeyName, ValueDoc;
    MembersOnce(kvPairs, n);
    var fields := Members(kvPairs, n).value;
    MemberEntry(fields, key, val);
    if !val.Null? {
      Regroup([OPEN_BRACE], Entries(fields), Entry(Field(Raw(KeyName(key)), ValueDoc(val))));
    }
  }

  lemma WrittenBad(kvPairs: seq<Object>, n: nat, text: Str)
    requires 2 * n < |kvPairs| && Written(kvPairs, n, text)
    ensures !kvPairs[2 * n].Null? && !kvPairs[2 * n].OString? ==> AllMembers(kvPairs) == Err(ClassCast)
    ensures (kvPairs[2 * n].Null? || kvPairs[2 * n].OString?) && 2 * n + 1 == |kvPairs| ==>
      AllMembers(kvPairs) == Err(ArrayIndexOutOfBounds)
  {
    hide Members, Member, Entries;
    MembersOnce(kvPairs, n);
    if !kvPairs[2 * n].Null? && !kvPairs[2 * n].OString? {
      MembersStop(kvPairs, n + 1, (|kvPairs| + 1) / 2);
    }
  }

  lemma Closed(kvPairs: seq<Object>, n: nat, text: Str)
    requires |kvPairs| <= 2 * n <= |kvPairs| + 1 && Written(kvPairs, n, text)
    ensures AllMembers(kvPairs).Ok?
    ensures (if |text| > 1 && text[|text| - 1] == COMMA then text[..|text| - 1] else text) + [CLOSE_BRACE]
         == Print(DObject(AllMembers(kvPairs).value))
  {
    hide Members, Entries, Print;
    var fields := AllMembers(kvPairs).value;
    ObjectText(fields);
    if fields == [] {
      assert text == [OPEN_BRACE];
    } else {
      CutEnd([OPEN_BRACE], Entries(fields));
    }
  }

  method WriteObject(kvPairs: seq<Object>) returns (r: Result<Str, WriteError>)
    ensures AllMembers(kvPairs).Err? ==> r == Err(AllMembers(kvPairs).error)
    ensures AllMembers(kvPairs).Ok? ==> r == Ok(Print(DObject(AllMembers(kvPairs).value)))
  {
    hide *;
    var sb := new StringBuilder();
    sb.Append([OPEN_BRACE]);
    WrittenNothing(kvPairs);
    var i := 0;
    ghost var n := 0;
    while i < |kvPairs|
      invariant i == 2 * n <= |kvPairs| + 1
      invariant Written(kvPairs, n, sb.text)
      decreases |kvPairs| - i
    {
      WrittenBad(kvPairs, n, sb.text);
      var key := kvPairs[i];
      if !key.Null? && !key.OString? {
        return Err(ClassCast);
      }
      if i + 1 == |kvPairs| {
        return Err(ArrayIndexOutOfBounds);
      }
      var val := kvPairs[i + 1];
      WrittenNext(kvPairs, n, sb.text, key, val);
      i, n := i + 2, n + 1;
      if val.Null? {
        continue;
      }
      ValueField(sb, KeyName(key), val);
    }
    Closed(kvPairs, n, sb.text);
    if |sb.text| > 1 && sb.text[|sb.text| - 1] == COMMA {
      sb.SetLength(|sb.text| - 1);
    }
    sb.Append([CLOSE_BRACE]);
    return Ok(sb.text);
  }

  // ----- Deployment specifications -----

  datatype ResourceShape = ResourceShape(taskManagerCpu: Str, taskManagerMemoryMiB: int, taskManagerCount: int,
                                         slotsPerManager: int)

  datatype StateCompatibility =
    StateCompatibility(jobGraphCompatible: bool, operatorUidsStable: bool, allowNonRestored: bool,
        freshStartApproved: bool)

  datatype DeploymentSpec = DeploymentSpec(
    imageDigest: Option<Str>,
    flinkVersion: Option<Str>,
    parallelism: int,
    maxParallelism: int,
    resources: ResourceShape,
    stateCompatibility: StateCompatibility,
    jobArgs: Option<StringMap>,
    flinkConfig: Option<StringMap>,
    autoscalerEnabled: bool)

  /** The property names of a specification and of the two records inside it. */
  datatype Property =
    | ImageDigest | FlinkVersion | Parallelism | MaxParallelism | Resources | StateCompat
    | JobArgs | FlinkConfig | AutoscalerEnabled
    | TaskManagerCpu | TaskManagerMemoryMiB | TaskManagerCount | SlotsPerManager
    | JobGraphCompatible | OperatorUidsStable | AllowNonRestored | FreshStartApproved

  function Name(p: Property): Str {
    match p
    case ImageDigest => Java("imageDigest")
    case FlinkVersion => Java("flinkVersion")
    case Parallelism => Java("parallelism")
    case MaxParallelism => Java("maxParallelism")
    case Resources => Java("resources")
    case StateCompat => Java("stateCompatibility")
    case JobArgs => Java("jobArgs")
    case FlinkConfig => Java("flinkConfig")
    case AutoscalerEnabled => Java("autoscalerEnabled")
    case TaskManagerCpu => Java("taskManagerCpu")
    case TaskManagerMemoryMiB => Java("taskManagerMemoryMiB")
    case TaskManagerCount => Java("taskManagerCount")
    case SlotsPerManager => Java("slotsPerManager")
    case JobGraphCompatible => Java("jobGraphCompatible")
    case OperatorUidsStable => Java("operatorUidsStable")
    case AllowNonRestored => Java("allowNonRestored")
    case FreshStartApproved => Java("freshStartApproved")
  }

  function ResourcesDoc(r: ResourceShape): Doc {
    DObject([
      Field(Raw(Name(TaskManagerCpu)), DDouble(r.taskManagerCpu)),
      Field(Raw(Name(TaskManagerMemoryMiB)), DNumber(r.taskManagerMemoryMiB)),
      Field(Raw(Name(TaskManagerCount)), DNumber(r.taskManagerCount)),
      Field(Raw(Name(SlotsPerManager)), DNumber(r.slotsPerManager))])
  }

  function CompatibilityDoc(c: StateCompatibility): Doc {
    DObject([
      Field(Raw(Name(JobGraphCompatible)), DBool(c.jobGraphCompatible)),
      Field(Raw(Name(OperatorUidsStable)), DBool(c.operatorUidsStable)),
      Field(Raw(Name(AllowNonRestored)), DBool(c.allowNonRestored)),
      Field(Raw(Name(FreshStartApproved)), DBool(c.freshStartApproved))])
  }

  /** A template of four members with the values put in. */
  function FourMembers(k1: Str, v1: Str, k2: Str, v2: Str, k3: Str, v3: Str, k4: Str, v4: Str): Str {
    [OPEN_BRACE] + Label(Raw(k1)) + v1 + [COMMA] + Label(Raw(k2)) + v2 + [COMMA]
    + Label(Raw(k3)) + v3 + [COMMA] + Label(Raw(k4)) + v4 + [CLOSE_BRACE]
  }

  lemma FourMembersText(a: Field, b: Field, c: Field, d: Field)
    requires a.key.Raw? && b.key.Raw? && c.key.Raw? && d.key.Raw?
    ensures FourMembers(a.key.name, Print(a.value), b.key.name, Print(b.value), c.key.name, Print(c.value), d.key.name,
        Print(d.value))
         == Print(DObject([a, b, c, d]))
  {
    var fields := [a, b, c, d];
    assert Print(DObject(fields)) == [OPEN_BRACE] + PrintFrom(DObject(fields), 0);
    hide Label, Print, PrintFrom;
    PrintFromOnce(fields, 0);
    PrintFromOnce(fields, 1);
    PrintFromOnce(fields, 2);
    PrintFromOnce(fields, 3);
    Template(Label(a.key), Print(a.value), Label(b.key), Print(b.value), Label(c.key), Print(c.value), Label(d.key),
        Print(d.value));
  }

  lemma Template(k1: Str, v1: Str, k2: Str, v2: Str, k3: Str, v3: Str, k4: Str, v4: Str)
    ensures [OPEN_BRACE] + k1 + v1 + [COMMA] + k2 + v2 + [COMMA] + k3 + v3 + [COMMA] + k4 + v4 + [CLOSE_BRACE]
         == [OPEN_BRACE] + (k1 + v1 + ([COMMA] + (k2 + v2 + ([COMMA]
             + (k3 + v3 + ([COMMA] + (k4 + v4 + [CLOSE_BRACE])))))))
  {
  }

  method ResourcesToJson(r: ResourceShape) returns (text: Str)
    ensures text == Print(ResourcesDoc(r))
  {
    FourMembersText(
      Field(Raw(Name(TaskManagerCpu)), DDouble(r.taskManagerCpu)),
      Field(Raw(Name(TaskManagerMemoryMiB)), DNumber(r.taskManagerMemoryMiB)),
      Field(Raw(Name(TaskManagerCount)), DNumber(r.taskManagerCount)),
      Field(Raw(Name(SlotsPerManager)), DNumber(r.slotsPerManager)));
    hide Name, FourMembers, Decimal;
    text := FourMembers(
      Name(TaskManagerCpu), r.taskManagerCpu,
      Name(TaskManagerMemoryMiB), Decimal(r.taskManagerMemoryMiB),
      Name(TaskManagerCount), Decimal(r.taskManagerCount),
      Name(SlotsPerManager), Decimal(r.slotsPerManager));
  }

  function BooleanText(b: bool): Str {
    if b then TRUE_TEXT else FALSE_TEXT
  }

  method CompatibilityToJson(c: StateCompatibility) returns (text: Str)
    ensures text == Print(CompatibilityDoc(c))
  {
    FourMembersText(
      Field(Raw(Name(JobGraphCompatible)), DBool(c.jobGraphCompatible)),
      Field(Raw(Name(OperatorUidsStable)), DBool(c.operatorUidsStable)),
      Field(Raw(Name(AllowNonRestored)), DBool(c.allowNonRestored)),
      Field(Raw(Name(FreshStartApproved)), DBool(c.freshStartApproved)));
    hide Name, FourMembers;
    text := FourMembers(
      Name(JobGraphCompatible), BooleanText(c.jobGraphCompatible),
      Name(OperatorUidsStable), BooleanText(c.operatorUidsStable),
      Name(AllowNonRestored), BooleanText(c.allowNonRestored),
      Name(FreshStartApproved), BooleanText(c.freshStartApproved));
  }

  /** The n-th append of toJson; a map that is null or empty adds nothing. */
  function SpecPart(spec: DeploymentSpec, n: nat): seq<Field>
    requires n < 9
  {
    match n
    case 0 => [Field(Raw(Name(ImageDigest)), DString(OrEmpty(spec.imageDigest)))]
    case 1 => [Field(Raw(Name(FlinkVersion)), DString(OrEmpty(spec.flinkVersion)))]
    case 2 => [Field(Raw(Name(Parallelism)), DNumber(spec.parallelism))]
    case 3 => [Field(Raw(Name(MaxParallelism)), DNumber(spec.maxParallelism))]
    case 4 => [Field(Raw(Name(Resources)), ResourcesDoc(spec.resources))]
    case 5 => [Field(Raw(Name(StateCompat)), CompatibilityDoc(spec.stateCompatibility))]
    case 6 => MapMember(Name(JobArgs), spec.jobArgs)
    case 7 => MapMember(Name(FlinkConfig), spec.flinkConfig)
    case 8 => [Field(Raw(Name(AutoscalerEnabled)), DBool(spec.autoscalerEnabled))]
  }

  function SpecParts(spec: DeploymentSpec, n: nat): seq<Field>
    requires n <= 9
  {
    if n == 0 then [] else SpecParts(spec, n - 1) + SpecPart(spec, n - 1)
  }

  function SpecFields(spec: DeploymentSpec): seq<Field> {
    SpecParts(spec, 9)
  }

  /** The first n appends of toJson are done. */
  ghost predicate Appended(spec: DeploymentSpec, n: nat, text: Str)
    requires n <= 9
  {
    text == [OPEN_BRACE] + Entries(SpecParts(spec, n))
  }

  lemma AppendedNext(spec: DeploymentSpec, n: nat, text: Str)
    requires n < 9 && Appended(spec, n, text)
    ensures Appended(spec, n + 1, text + Entries(SpecPart(spec, n)))
  {
    var fields, more := SpecParts(spec, n), SpecPart(spec, n);
    assert SpecParts(spec, n + 1) == fields + more;
    assert |more| <= 1;
    hide SpecParts, SpecPart, Entries, Entry;
    EntriesJoin(fields, more);
    Regroup([OPEN_BRACE], Entries(fields), Entries(more));
  }

  lemma EntriesJoin(fields: seq<Field>, more: seq<Field>)
    requires |more| <= 1
    ensures Entries(fields + more) == Entries(fields) + Entries(more)
  {
    if more == [] {
      assert fields + more == fields && Entries(fields) + Entries(more) == Entries(fields);
    } else {
      assert more == [more[0]];
      EntriesSnoc(fields, more[0]);
      EntryAlone(more[0]);
    }
    hide Entries, Entry;
  }

  lemma EntryAlone(f: Field)
    ensures Entries([f]) == Entry(f)
  {
    assert [f][..0] == [] && Entries([]) == [] && [] + Entry(f) == Entry(f);
  }

  lemma SpecEntries(spec: DeploymentSpec)
    ensures Entries(SpecPart(spec, 0)) == Entry(Field(Raw(Name(ImageDigest)), DString(OrEmpty(spec.imageDigest))))
    ensures Entries(SpecPart(spec, 1)) == Entry(Field(Raw(Name(FlinkVersion)), DString(OrEmpty(spec.flinkVersion))))
    ensures Entries(SpecPart(spec, 2)) == Entry(Field(Raw(Name(Parallelism)), DNumber(spec.parallelism)))
    ensures Entries(SpecPart(spec, 3)) == Entry(Field(Raw(Name(MaxParallelism)), DNumber(spec.maxParallelism)))
    ensures Entries(SpecPart(spec, 4)) == Entry(Field(Raw(Name(Resources)), ResourcesDoc(spec.resources)))
    ensures Entries(SpecPart(spec, 5)) == Entry(Field(Raw(Name(StateCompat)),
        CompatibilityDoc(spec.stateCompatibility)))
    ensures Entries(SpecPart(spec, 6)) == Entries(MapMember(Name(JobArgs), spec.jobArgs))
    ensures Entries(SpecPart(spec, 7)) == Entries(MapMember(Name(FlinkConfig), spec.flinkConfig))
    ensures Entries(SpecPart(spec, 8)) == Entry(Field(Raw(Name(AutoscalerEnabled)), DBool(spec.autoscalerEnabled)))
  {
    hide Name, Entries, Entry, ResourcesDoc, CompatibilityDoc, MapMember;
    EntryAlone(SpecPart(spec, 0)[0]);
    EntryAlone(SpecPart(spec, 1)[0]);
    EntryAlone(SpecPart(spec, 2)[0]);
    EntryAlone(SpecPart(spec, 3)[0]);
    EntryAlone(SpecPart(spec, 4)[0]);
    EntryAlone(SpecPart(spec, 5)[0]);
    EntryAlone(SpecPart(spec, 8)[0]);
  }

  lemma AppendedNothing(spec: DeploymentSpec)
    ensures Appended(spec, 0, [] + [OPEN_BRACE])
  {
  }

  lemma AppendedAll(spec: DeploymentSpec, text: Str)
    requires Appended(spec, 9, text)
    ensures text != [] && text[|text| - 1] == COMMA
    ensures text[..|text| - 1] + [CLOSE_BRACE] == Print(DObject(SpecFields(spec)))
  {
    assert SpecFields(spec) == SpecParts(spec, 8) + SpecPart(spec, 8);
    hide SpecParts, SpecPart, Entries, Print;
    ObjectText(SpecFields(spec));
    CutEnd([OPEN_BRACE], Entries(SpecFields(spec)));
  }

  /** A member whose value is already JSON text. */
  method JsonField(sb: StringBuilder, key: Str, json: Str, ghost value: Doc)
    requires json == Print(value)
    modifies sb
    ensures sb.text == old(sb.text) + Entry(Field(Raw(key), value))
  {
    hide Print;
    sb.Append([QUOTE] + key + [QUOTE, COLON]);
    sb.Append(json);
    sb.Append([COMMA]);
    assert Label(Raw(key)) == [QUOTE] + key + [QUOTE, COLON];
  }

  /** The first four appends of toJson. */
  method AppendScalars(sb: StringBuilder, spec: DeploymentSpec)
    requires Appended(spec, 0, sb.text)
    modifies sb
    ensures Appended(spec, 4, sb.text)
  {
    hide *;
    SpecEntries(spec);
    AppendedNext(spec, 0, sb.text);
    StringField(sb, Name(ImageDigest), spec.imageDigest);
    assert Appended(spec, 1, sb.text);
    AppendedNext(spec, 1, sb.text);
    StringField(sb, Name(FlinkVersion), spec.flinkVersion);
    assert Appended(spec, 2, sb.text);
    AppendedNext(spec, 2, sb.text);
    NumberField(sb, Name(Parallelism), spec.parallelism);
    assert Appended(spec, 3, sb.text);
    AppendedNext(spec, 3, sb.text);
    NumberField(sb, Name(MaxParallelism), spec.maxParallelism);
  }

  /** The other five. */
  method AppendRecords(sb: StringBuilder, spec: DeploymentSpec)
    requires Appended(spec, 4, sb.text)
    modifies sb
    ensures Appended(spec, 9, sb.text)
  {
    hide *;
    SpecEntries(spec);
    var resources := ResourcesToJson(spec.resources);
    AppendedNext(spec, 4, sb.text);
    JsonField(sb, Name(Resources), resources, ResourcesDoc(spec.resources));
    assert Appended(spec, 5, sb.text);
    var compatibility := CompatibilityToJson(spec.stateCompatibility);
    AppendedNext(spec, 5, sb.text);
    JsonField(sb, Name(StateCompat), compatibility, CompatibilityDoc(spec.stateCompatibility));
    assert Appended(spec, 6, sb.text);
    AppendedNext(spec, 6, sb.text);
    MapField(sb, Name(JobArgs), spec.jobArgs);
    assert Appended(spec, 7, sb.text);
    AppendedNext(spec, 7, sb.text);
    MapField(sb, Name(FlinkConfig), spec.flinkConfig);
    assert Appended(spec, 8, sb.text);
    AppendedNext(spec, 8, sb.text);
    BooleanField(sb, Name(AutoscalerEnabled), spec.autoscalerEnabled);
  }

  method SpecToJson(spec: DeploymentSpec) returns (text: Str)
    ensures text == Print(DObject(SpecFields(spec)))
  {
    hide *;
    var sb := new StringBuilder();
    AppendedNothing(spec);
    sb.Append([OPEN_BRACE]);
    AppendScalars(sb, spec);
    AppendRecords(sb, spec);
    AppendedAll(spec, sb.text);
    if sb.text[|sb.text| - 1] == COMMA {
      sb.SetLength(|sb.text| - 1);
    }
    sb.Append([CLOSE_BRACE]);
    text := sb.text;
  }

  /** The text of a small object. */
  lemma ObjectForm()
    ensures Print(DObject([Field(Raw(Java("a")), DString(Java("\"\n"))), Field(Raw(Java("b")), DBool(true))]))
         == Java("{\"a\":\"\\\"\\n\",\"b\":true}")
    ensures Print(DObject([])) == Java("{}") && Print(DNumber(-128)) == Java("-128")
  {
    var a, b := Field(Raw(Java("a")), DString(Java("\"\n"))), Field(Raw(Java("b")), DBool(true));
    DecimalForm();
    EscapesForm();
    PrintFromOnce([a, b], 0);
    PrintFromOnce([a, b], 1);
    FormsOnce([a, b]);
    JavaForms();
    Joined();
    hide *;
  }

  lemma JavaForms()
    ensures Java("a") == [97] && Java("b") == [98] && Java("{}") == [OPEN_BRACE, CLOSE_BRACE]
    ensures Java("{\"a\":\"\\\"\\n\",\"b\":true}")
         == [OPEN_BRACE, QUOTE, 97, QUOTE, COLON, QUOTE, BACKSLASH, QUOTE, BACKSLASH, LOWER_N, QUOTE, COMMA,
             QUOTE, 98, QUOTE, COLON, LOWER_T, LOWER_R, LOWER_U, LOWER_E, CLOSE_BRACE]
  {
  }

  lemma Joined()
    ensures
      var last := [QUOTE, 98, QUOTE, COLON] + [LOWER_T, LOWER_R, LOWER_U, LOWER_E] + [CLOSE_BRACE];
      var text := [OPEN_BRACE] + ([QUOTE, 97, QUOTE, COLON] + [QUOTE, BACKSLASH, QUOTE, BACKSLASH, LOWER_N, QUOTE]
          + ([COMMA] + last));
      text == [OPEN_BRACE, QUOTE, 97, QUOTE, COLON, QUOTE, BACKSLASH, QUOTE, BACKSLASH, LOWER_N, QUOTE, COMMA,
               QUOTE, 98, QUOTE, COLON, LOWER_T, LOWER_R, LOWER_U, LOWER_E, CLOSE_BRACE]
  {
  }

  lemma FormsOnce(fields: seq<Field>)
    ensures Print(DObject([])) == [OPEN_BRACE, CLOSE_BRACE]
    ensures fields != [] ==> Print(DObject(fields)) == [OPEN_BRACE] + PrintFrom(DObject(fields), 0)
    ensures Print(DBool(true)) == [LOWER_T, LOWER_R, LOWER_U, LOWER_E]
    ensures forall n :: Print(DNumber(n)) == Decimal(n)
    ensures forall u: Unit :: Label(Raw([u])) == [QUOTE, u, QUOTE, COLON]
  {
    hide PrintFrom, Decimal;
  }

  lemma EscapesForm()
    ensures Print(DString(Java("\"\n"))) == [QUOTE, BACKSLASH, QUOTE, BACKSLASH, LOWER_N, QUOTE]
  {
    var s := Java("\"\n");
    assert s == [QUOTE, NEWLINE] && s[1..] == [NEWLINE] && s[1..][1..] == [];
    assert EscapeEach(s) == EscapeUnit(QUOTE) + EscapeEach([NEWLINE]);
    assert EscapeEach([NEWLINE]) == EscapeUnit(NEWLINE) + EscapeEach([]);
  }
}
