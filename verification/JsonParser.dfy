// The recursive-descent JSON reader: first as a function of the text and a position, then as the
// code runs it, with a position that every routine advances in place.
module JsonParser {
  import opened Wrappers
  import opened JsonText

  /** A double is kept as the text that Double.parseDouble would be given. */
  datatype Json =
    | JNull
    | JBool(b: bool)
    | JInteger(n: int)
    | JLong(n: int)
    | JDouble(text: Str)
    | JString(s: Str)
    | JArray(items: seq<Json>)
    | JObject(fields: map<Str, Json>)

  /** The exceptions a malformed text can raise. */
  datatype ParseError = IndexOutOfBounds | NumberFormat | IllegalArgument

  type Parsed<T> = Result<(T, nat), ParseError>

  /** Character.isWhitespace. */
  predicate IsWhitespace(u: Unit) {
    || 0x09 <= u <= 0x0D || 0x1C <= u <= 0x20 || u == 0x1680
    || (0x2000 <= u <= 0x200A && u != 0x2007)
    || u == 0x2028 || u == 0x2029 || u == 0x205F || u == 0x3000
  }

  // ----- The reader as a function -----

  function SkipWhitespace(s: Str, p: nat): (q: nat)
    ensures p <= q && (p <= |s| ==> q <= |s|)
    decreases if p <= |s| then |s| - p else 0
  {
    if p < |s| && IsWhitespace(s[p]) then SkipWhitespace(s, p + 1) else p
  }

  function HexDigit(u: Unit): Option<int> {
    if IsDigit(u) then Some(u as int - 48)
    else if 97 <= u <= 102 then Some(u as int - 87)
    else if 65 <= u <= 70 then Some(u as int - 55)
    else None
  }

  function HexValue(s: Str): Option<int> {
    if s == [] then Some(0)
    else
      var rest, last := HexValue(s[..|s| - 1]), HexDigit(s[|s| - 1]);
      if rest.None? || last.None? then None else Some(rest.value * 16 + last.value)
  }

  /** (char) Integer.parseInt(s, 16): a sign is accepted, and a negative value wraps around. */
  function HexUnit(s: Str): Option<Unit> {
    if s == [] then None
    else
      var signed := s[0] == MINUS || s[0] == PLUS;
      var digits := if signed then s[1..] else s;
      if digits == [] || HexValue(digits).None? then None
      else
        var value := if s[0] == MINUS then -HexValue(digits).value else HexValue(digits).value;
        Some((value % 0x1_0000) as Unit)
  }

  /** After a backslash: the characters it stands for, and where to go on. */
  function EscapeAt(s: Str, p: nat): Parsed<Str> {
    if p >= |s| then Err(IndexOutOfBounds)
    else if s[p] == LOWER_N then Ok(([NEWLINE], p + 1))
    else if s[p] == LOWER_R then Ok(([RETURN], p + 1))
    else if s[p] == LOWER_T then Ok(([TAB], p + 1))
    else if s[p] == LOWER_U then
      if p + 5 > |s| then Err(IndexOutOfBounds)
      else if HexUnit(s[p + 1..p + 5]).None? then Err(NumberFormat)
      else Ok(([HexUnit(s[p + 1..p + 5]).value], p + 5))
    else Ok(([s[p]], p + 1))
  }

  /** The loop of parseString; a text that ends early ends the string. */
  function StringBody(s: Str, p: nat, sofar: Str): (r: Parsed<Str>)
    ensures r.Ok? ==> p <= r.value.1
    decreases if p <= |s| then |s| - p else 0
  {
    if p >= |s| then Ok((sofar, p))
    else if s[p] == QUOTE then Ok((sofar, p + 1))
    else if s[p] == BACKSLASH then
      match EscapeAt(s, p + 1)
      case Err(e) => Err(e)
      case Ok((units, q)) => StringBody(s, q, sofar + units)
    else StringBody(s, p + 1, sofar + [s[p]])
  }

  /** parseString, whatever character it starts at. */
  function StringAt(s: Str, p: nat): (r: Parsed<Str>)
    ensures r.Ok? ==> p < r.value.1
  {
    StringBody(s, p + 1, [])
  }

  predicate IsNumberUnit(u: Unit) {
    u == MINUS || u == PLUS || u == DOT || IsDigit(u) || u == LOWER_E || u == UPPER_E
  }

  predicate IsFloatUnit(u: Unit) {
    u == DOT || u == LOWER_E || u == UPPER_E
  }

  function NumberEnd(s: Str, p: nat): (q: nat)
    requires p <= |s|
    ensures p <= q <= |s| && forall i | p <= i < q :: IsNumberUnit(s[i])
    decreases |s| - p
  {
    if p < |s| && IsNumberUnit(s[p]) then NumberEnd(s, p + 1) else p
  }

  function DropSign(s: Str): Str {
    if s != [] && (s[0] == MINUS || s[0] == PLUS) then s[1..] else s
  }

  function ExponentAt(s: Str): (i: nat)
    ensures i <= |s|
  {
    if s == [] || s[0] == LOWER_E || s[0] == UPPER_E then 0 else 1 + ExponentAt(s[1..])
  }

  predicate IsMantissa(s: Str) {
    && (exists i :: 0 <= i < |s| && IsDigit(s[i]))
    && (forall i | 0 <= i < |s| :: IsDigit(s[i]) || s[i] == DOT)
    && (forall i, j | 0 <= i < j < |s| :: !(s[i] == DOT && s[j] == DOT))
  }

  /** What Double.parseDouble accepts of a text made of number characters. */
  predicate IsDoubleText(s: Str) {
    var t := DropSign(s);
    var e := ExponentAt(t);
    && IsMantissa(t[..e])
    && (e < |t| ==> DropSign(t[e + 1..]) != [] && AllDigits(DropSign(t[e + 1..])))
  }

  function NumberOf(text: Str): Result<Json, ParseError> {
    if exists i :: 0 <= i < |text| && IsFloatUnit(text[i]) then
      if IsDoubleText(text) then Ok(JDouble(text)) else Err(NumberFormat)
    else
      match ParseLong(text)
      case None => Err(NumberFormat)
      case Some(n) => Ok(if MIN_INTEGER <= n <= MAX_INTEGER then JInteger(n) else JLong(n))
  }

  function NumberAt(s: Str, p: nat): (r: Parsed<Json>)
    requires p <= |s|
    ensures r.Ok? ==> p < r.value.1
  {
    var q := NumberEnd(s, p);
    match NumberOf(s[p..q])
    case Err(e) => Err(e)
    case Ok(n) => Ok((n, q))
  }

  function BoolAt(s: Str, p: nat): Parsed<Json>
    requires p <= |s|
  {
    if TRUE_TEXT <= s[p..] then Ok((JBool(true), p + 4))
    else if FALSE_TEXT <= s[p..] then Ok((JBool(false), p + 5))
    else Err(IllegalArgument)
  }

  function Left(s: Str, p: nat): nat {
    if p <= |s| then |s| - p else 0
  }

  /** parse; at the end of the text it returns null. */
  function ValueAt(s: Str, p: nat): (r: Parsed<Json>)
    ensures r.Ok? ==> p <= r.value.1 && (p < |s| ==> p < r.value.1)
    decreases Left(s, p), 2
  {
    var q := SkipWhitespace(s, p);
    if q >= |s| then Ok((JNull, q))
    else if s[q] == OPEN_BRACE then ObjectAt(s, q)
    else if s[q] == OPEN_BRACKET then ArrayAt(s, q)
    else if s[q] == QUOTE then
      match StringAt(s, q)
      case Err(e) => Err(e)
      case Ok((text, end)) => Ok((JString(text), end))
    else if s[q] == LOWER_T || s[q] == LOWER_F then BoolAt(s, q)
    else if s[q] == LOWER_N then Ok((JNull, q + 4))
    else NumberAt(s, q)
  }

  function ObjectAt(s: Str, p: nat): (r: Parsed<Json>)
    requires p < |s|
    ensures r.Ok? ==> p < r.value.1
    decreases Left(s, p), 1
  {
    var q := SkipWhitespace(s, p + 1);
    if q >= |s| then Err(IndexOutOfBounds)
    else if s[q] == CLOSE_BRACE then Ok((JObject(map[]), q + 1))
    else Fields(s, q, map[])
  }

  /** The loop of parseObj; a text that ends after a comma ends the object. */
  function Fields(s: Str, p: nat, sofar: map<Str, Json>): (r: Parsed<Json>)
    ensures r.Ok? ==> p <= r.value.1
    decreases Left(s, p), 0
  {
    if p >= |s| then Ok((JObject(sofar), p))
    else
      match StringAt(s, SkipWhitespace(s, p))
      case Err(e) => Err(e)
      case Ok((key, afterKey)) =>
        match ValueAt(s, SkipWhitespace(s, afterKey) + 1)
        case Err(e) => Err(e)
        case Ok((value, afterValue)) =>
          var q := SkipWhitespace(s, afterValue);
          var fields := sofar[key := value];
          if q >= |s| then Err(IndexOutOfBounds)
          else if s[q] == COMMA then Fields(s, q + 1, fields)
          else if s[q] == CLOSE_BRACE then Ok((JObject(fields), q + 1))
          else Fields(s, q, fields)
  }

  function ArrayAt(s: Str, p: nat): (r: Parsed<Json>)
    requires p < |s|
    ensures r.Ok? ==> p < r.value.1
    decreases Left(s, p), 1
  {
    var q := SkipWhitespace(s, p + 1);
    if q >= |s| then Err(IndexOutOfBounds)
    else if s[q] == CLOSE_BRACKET then Ok((JArray([]), q + 1))
    else Items(s, q, [])
  }

  function Items(s: Str, p: nat, sofar: seq<Json>): (r: Parsed<Json>)
    ensures r.Ok? ==> p <= r.value.1
    decreases Left(s, p), 3
  {
    if p >= |s| then Ok((JArray(sofar), p))
    else
      match ValueAt(s, p)
      case Err(e) => Err(e)
      case Ok((value, afterValue)) =>
        var q := SkipWhitespace(s, afterValue);
        var items := sofar + [value];
        if q >= |s| then Err(IndexOutOfBounds)
        else if s[q] == COMMA then Items(s, q + 1, items)
        else if s[q] == CLOSE_BRACKET then Ok((JArray(items), q + 1))
        else Items(s, q, items)
  }

  // ----- The entry point -----

  /** String.trim. */
  function Trim(s: Str): Str {
    if s != [] && s[0] <= 0x20 then Trim(s[1..])
    else if s != [] && s[|s| - 1] <= 0x20 then Trim(s[..|s| - 1])
    else s
  }

  predicate IsBlank(s: Str) {
    forall i | 0 <= i < |s| :: IsWhitespace(s[i])
  }

  /** parseObject: nothing gives the empty map; anything but an object is refused; what follows
      the object is ignored. */
  function ObjectOf(json: Str): Result<map<Str, Json>, ParseError> {
    if IsBlank(json) then Ok(map[])
    else
      match ValueAt(Trim(json), 0)
      case Err(e) => Err(e)
      case Ok((value, _)) => if value.JObject? then Ok(value.fields) else Err(IllegalArgument)
  }

  // ----- The reader as the code runs it -----

  /** A routine that was given `pos` delivered what the function says: the same exception, or the
      same value with the position left where the function leaves it. */
  ghost predicate Delivered<T(!new)>(expected: Parsed<T>, r: Result<T, ParseError>, pos: array<nat>)
    requires pos.Length == 1
    reads pos
  {
    match expected
    case Err(e) => r == Err(e)
    case Ok((value, end)) => r == Ok(value) && pos[0] == end
  }

  method SkipBlanks(s: Str, pos: array<nat>)
    requires pos.Length == 1
    modifies pos
    ensures pos[0] == SkipWhitespace(s, old(pos[0]))
  {
    while pos[0] < |s| && IsWhitespace(s[pos[0]])
      invariant SkipWhitespace(s, pos[0]) == SkipWhitespace(s, old(pos[0]))
      decreases |s| - pos[0]
    {
      pos[0] := pos[0] + 1;
    }
  }

  method ParseString(s: Str, pos: array<nat>) returns (r: Result<Str, ParseError>)
    requires pos.Length == 1
    modifies pos
    ensures Delivered(StringAt(s, old(pos[0])), r, pos)
  {
    pos[0] := pos[0] + 1;
    var text: Str := [];
    while pos[0] < |s|
      invariant StringBody(s, pos[0], text) == StringAt(s, old(pos[0]))
      decreases |s| - pos[0]
    {
      var c := s[pos[0]];
      pos[0] := pos[0] + 1;
      if c == QUOTE {
        return Ok(text);
      }
      if c == BACKSLASH {
        if pos[0] >= |s| {
          return Err(IndexOutOfBounds);
        }
        var next := s[pos[0]];
        pos[0] := pos[0] + 1;
        if next == LOWER_N {
          text := text + [NEWLINE];
        } else if next == LOWER_R {
          text := text + [RETURN];
        } else if next == LOWER_T {
          text := text + [TAB];
        } else if next == LOWER_U {
          if pos[0] + 4 > |s| {
            return Err(IndexOutOfBounds);
          }
          var unit := HexUnit(s[pos[0]..pos[0] + 4]);
          if unit.None? {
            return Err(NumberFormat);
          }
          text := text + [unit.value];
          pos[0] := pos[0] + 4;
        } else {
          text := text + [next];
        }
      } else {
        text := text + [c];
      }
    }
    return Ok(text);
  }

  method ParseNumber(s: Str, pos: array<nat>) returns (r: Result<Json, ParseError>)
    requires pos.Length == 1 && pos[0] <= |s|
    modifies pos
    ensures Delivered(NumberAt(s, old(pos[0])), r, pos)
  {
    var start := pos[0];
    var isFloat := false;
    while pos[0] < |s| && IsNumberUnit(s[pos[0]])
      invariant start <= pos[0] <= |s|
      invariant NumberEnd(s, pos[0]) == NumberEnd(s, start)
      invariant isFloat <==> exists i :: 0 <= i < |s[start..pos[0]]| && IsFloatUnit(s[start..pos[0]][i])
      decreases |s| - pos[0]
    {
      ghost var before := s[start..pos[0]];
      if IsFloatUnit(s[pos[0]]) {
        isFloat := true;
      }
      pos[0] := pos[0] + 1;
      FloatGrows(before, s[pos[0] - 1]);
      assert s[start..pos[0]] == before + [s[pos[0] - 1]];
    }
    var num := s[start..pos[0]];
    if isFloat {
      return if IsDoubleText(num) then Ok(JDouble(num)) else Err(NumberFormat);
    }
    match ParseLong(num) {
      case None => return Err(NumberFormat);
      case Some(n) => return Ok(if MIN_INTEGER <= n <= MAX_INTEGER then JInteger(n) else JLong(n));
    }
  }

  lemma FloatGrows(text: Str, u: Unit)
    ensures (exists i :: 0 <= i < |text + [u]| && IsFloatUnit((text + [u])[i]))
         <==> IsFloatUnit(u) || exists i :: 0 <= i < |text| && IsFloatUnit(text[i])
  {
    assert (text + [u])[|text|] == u;
    forall i | 0 <= i < |text| ensures (text + [u])[i] == text[i] {}
  }

  method ParseBool(s: Str, pos: array<nat>) returns (r: Result<Json, ParseError>)
    requires pos.Length == 1 && pos[0] <= |s|
    modifies pos
    ensures Delivered(BoolAt(s, old(pos[0])), r, pos)
  {
    if TRUE_TEXT <= s[pos[0]..] {
      pos[0] := pos[0] + 4;
      return Ok(JBool(true));
    }
    if FALSE_TEXT <= s[pos[0]..] {
      pos[0] := pos[0] + 5;
      return Ok(JBool(false));
    }
    return Err(IllegalArgument);
  }

  method Parse(s: Str, pos: array<nat>) returns (r: Result<Json, ParseError>)
    requires pos.Length == 1
    modifies pos
    ensures Delivered(ValueAt(s, old(pos[0])), r, pos)
    decreases Left(s, pos[0]), 2
  {
    SkipBlanks(s, pos);
    if pos[0] >= |s| {
      return Ok(JNull);
    }
    var c := s[pos[0]];
    if c == OPEN_BRACE {
      r := ParseObj(s, pos);
    } else if c == OPEN_BRACKET {
      r := ParseArr(s, pos);
    } else if c == QUOTE {
      var text := ParseString(s, pos);
      r := if text.Ok? then Ok(JString(text.value)) else Err(text.error);
    } else if c == LOWER_T || c == LOWER_F {
      r := ParseBool(s, pos);
    } else if c == LOWER_N {
      pos[0] := pos[0] + 4;
      r := Ok(JNull);
    } else {
      r := ParseNumber(s, pos);
    }
  }

  lemma ObjectOnce(s: Str, p: nat)
    requires p < |s|
    ensures var q := SkipWhitespace(s, p + 1);
            ObjectAt(s, p) == if q >= |s| then Err(IndexOutOfBounds)
                              else if s[q] == CLOSE_BRACE then Ok((JObject(map[]), q + 1))
                              else Fields(s, q, map[])
  {
    hide SkipWhitespace, Fields;
  }

  /** What parseObj does behind a member's value. */
  function AfterMember(s: Str, p: nat, fields: map<Str, Json>): Parsed<Json> {
    var q := SkipWhitespace(s, p);
    if q >= |s| then Err(IndexOutOfBounds)
    else if s[q] == COMMA then Fields(s, q + 1, fields)
    else if s[q] == CLOSE_BRACE then Ok((JObject(fields), q + 1))
    else Fields(s, q, fields)
  }

  /** One turn of parseObj's loop. */
  lemma FieldsOnce(s: Str, p: nat, sofar: map<Str, Json>)
    requires p < |s|
    ensures Fields(s, p, sofar) ==
            match StringAt(s, SkipWhitespace(s, p))
            case Err(e) => Err(e)
            case Ok((key, afterKey)) =>
              match ValueAt(s, SkipWhitespace(s, afterKey) + 1)
              case Err(e) => Err(e)
              case Ok((value, afterValue)) => AfterMember(s, afterValue, sofar[key := value])
  {
    hide ValueAt, SkipWhitespace, StringAt;
  }

  lemma FieldsOver(s: Str, p: nat, sofar: map<Str, Json>)
    requires p >= |s|
    ensures Fields(s, p, sofar) == Ok((JObject(sofar), p))
  {
  }

  method ParseObj(s: Str, pos: array<nat>) returns (r: Result<Json, ParseError>)
    requires pos.Length == 1 && pos[0] < |s|
    modifies pos
    ensures Delivered(ObjectAt(s, old(pos[0])), r, pos)
    decreases Left(s, pos[0]), 1
  {
    hide SkipWhitespace, StringAt, StringBody, ValueAt, ObjectAt, Fields;
    var start := pos[0];
    ObjectOnce(s, start);
    pos[0] := pos[0] + 1;
    var fields: map<Str, Json> := map[];
    SkipBlanks(s, pos);
    if pos[0] >= |s| {
      return Err(IndexOutOfBounds);
    }
    if s[pos[0]] == CLOSE_BRACE {
      pos[0] := pos[0] + 1;
      return Ok(JObject(fields));
    }
    while pos[0] < |s|
      invariant start < pos[0]
      invariant Fields(s, pos[0], fields) == ObjectAt(s, start)
      decreases |s| - pos[0]
    {
      FieldsOnce(s, pos[0], fields);
      SkipBlanks(s, pos);
      var key := ParseString(s, pos);
      if key.Err? {
        return Err(key.error);
      }
      SkipBlanks(s, pos);
      pos[0] := pos[0] + 1;
      var value := Parse(s, pos);
      if value.Err? {
        return value;
      }
      fields := fields[key.value := value.value];
      SkipBlanks(s, pos);
      if pos[0] >= |s| {
        return Err(IndexOutOfBounds);
      }
      if s[pos[0]] == COMMA {
        pos[0] := pos[0] + 1;
        continue;
      }
      if s[pos[0]] == CLOSE_BRACE {
        pos[0] := pos[0] + 1;
        return Ok(JObject(fields));
      }
    }
    FieldsOver(s, pos[0], fields);
    return Ok(JObject(fields));
  }

  method ParseArr(s: Str, pos: array<nat>) returns (r: Result<Json, ParseError>)
    requires pos.Length == 1 && pos[0] < |s|
    modifies pos
    ensures Delivered(ArrayAt(s, old(pos[0])), r, pos)
    decreases Left(s, pos[0]), 1
  {
    hide SkipWhitespace, StringAt, StringBody, ValueAt, ObjectAt, Fields, NumberAt;
    var start := pos[0];
    pos[0] := pos[0] + 1;
    var items: seq<Json> := [];
    SkipBlanks(s, pos);
    if pos[0] >= |s| {
      return Err(IndexOutOfBounds);
    }
    if s[pos[0]] == CLOSE_BRACKET {
      pos[0] := pos[0] + 1;
      return Ok(JArray(items));
    }
    while pos[0] < |s|
      invariant start < pos[0]
      invariant Items(s, pos[0], items) == ArrayAt(s, start)
      decreases |s| - pos[0]
    {
      var value := Parse(s, pos);
      if value.Err? {
        return value;
      }
      items := items + [value.value];
      SkipBlanks(s, pos);
      if pos[0] >= |s| {
        return Err(IndexOutOfBounds);
      }
      if s[pos[0]] == COMMA {
        pos[0] := pos[0] + 1;
        continue;
      }
      if s[pos[0]] == CLOSE_BRACKET {
        pos[0] := pos[0] + 1;
        return Ok(JArray(items));
      }
    }
    return Ok(JArray(items));
  }

  method ParseObject(json: Str) returns (r: Result<map<Str, Json>, ParseError>)
    ensures r == ObjectOf(json)
  {
    if IsBlank(json) {
      return Ok(map[]);
    }
    var pos := new nat[1];
    pos[0] := 0;
    var value := Parse(Trim(json), pos);
    if value.Err? {
      return Err(value.error);
    }
    return if value.value.JObject? then Ok(value.value.fields) else Err(IllegalArgument);
  }

  // ----- Texts that are refused, and how -----

  /** A text that ends inside an object or an array, a word that is none, a number that is none, and a
      text that is no object. */
  lemma RefusedTexts()
    ensures ObjectOf(Java("{")) == Err(IndexOutOfBounds)
    ensures ObjectOf(Java("[")) == Err(IndexOutOfBounds)
    ensures ObjectOf(Java("tru")) == Err(IllegalArgument)
    ensures ObjectOf(Java("-")) == Err(NumberFormat)
    ensures ObjectOf(Java("[]")) == Err(IllegalArgument)
    ensures ObjectOf(Java("")) == ObjectOf(Java(" ")) == Ok(map[])
    ensures ObjectOf(Java(" {}")) == Ok(map[])
  {
    OneUnit(OPEN_BRACE);
    OneUnit(OPEN_BRACKET);
    OneUnit(MINUS);
    assert Java("{") == [OPEN_BRACE] && Java("[") == [OPEN_BRACKET] && Java("-") == [MINUS];
    BadWord();
    EmptyBrackets();
    assert IsBlank(Java("")) && IsBlank(Java(" "));
  }

  lemma OneUnit(u: Unit)
    requires u == OPEN_BRACE || u == OPEN_BRACKET || u == MINUS
    ensures ObjectOf([u]) == Err(if u == MINUS then NumberFormat else IndexOutOfBounds)
  {
    var s: Str := [u];
    assert !IsWhitespace(s[0]) && Trim(s) == s;
    assert SkipWhitespace(s, 0) == 0 && SkipWhitespace(s, 1) == 1;
    if u == MINUS {
      assert NumberEnd(s, 1) == 1;
      assert NumberEnd(s, 0) == 1;
      assert s[0..1] == s;
      assert NumberOf(s) == Err(NumberFormat);
      assert NumberAt(s, 0) == Err(NumberFormat);
      assert ValueAt(s, 0) == Err(NumberFormat);
    } else {
      assert ValueAt(s, 0) == Err(IndexOutOfBounds);
    }
  }

  lemma BadWord()
    ensures ObjectOf(Java("tru")) == Err(IllegalArgument)
  {
    var s := Java("tru");
    assert s[0] == LOWER_T && s[2] == LOWER_U && !IsWhitespace(s[0]) && Trim(s) == s;
    assert SkipWhitespace(s, 0) == 0 && s[0..] == s;
  }

  lemma EmptyBrackets()
    ensures ObjectOf(Java("[]")) == Err(IllegalArgument) && ObjectOf(Java(" {}")) == Ok(map[])
  {
    var s, t, u := Java("[]"), Java(" {}"), Java("{}");
    assert s[0] == OPEN_BRACKET && s[1] == CLOSE_BRACKET && !IsWhitespace(s[0]) && Trim(s) == s;
    assert SkipWhitespace(s, 0) == 0 && SkipWhitespace(s, 1) == 1;
    assert t[0] == 32 && t[1..] == u && u[0] == OPEN_BRACE && u[1] == CLOSE_BRACE && !IsWhitespace(t[1]);
    assert Trim(u) == u && Trim(t) == u;
    assert SkipWhitespace(u, 0) == 0 && SkipWhitespace(u, 1) == 1;
  }

  /** The sixteen digits, in either case, and no other character. */
  lemma HexDigitMeans(u: Unit, d: int)
    ensures HexDigit(u) == Some(d) <==>
              0 <= d < 16 && (u == Java("0123456789abcdef")[d] || u == Java("0123456789ABCDEF")[d])
  {
    var lower, upper := Java("0123456789abcdef"), Java("0123456789ABCDEF");
    assert forall k | 0 <= k < 10 :: lower[k] as int == 48 + k && upper[k] as int == 48 + k;
    assert forall k | 10 <= k < 16 :: lower[k] as int == 87 + k && upper[k] as int == 55 + k;
  }

  /** The number that four digits spell, the most significant one first. */
  function FourDigits(a: int, b: int, c: int, d: int): int {
    a * 0x1000 + b * 0x100 + c * 0x10 + d
  }

  /** Four digits without a sign are the character with that number. */
  lemma HexMeans(a: Unit, b: Unit, c: Unit, d: Unit)
    requires HexDigit(a).Some? && HexDigit(b).Some? && HexDigit(c).Some? && HexDigit(d).Some?
    ensures var n := FourDigits(HexDigit(a).value, HexDigit(b).value, HexDigit(c).value, HexDigit(d).value);
            0 <= n < 0x1_0000 && HexUnit([a, b, c, d]) == Some(n as Unit)
  {
    HexDigitBound(a);
    HexDigitBound(b);
    HexDigitBound(c);
    HexDigitBound(d);
    FourHexValue(a, b, c, d);
    hide HexValue, HexDigit;
  }

  /** A sign takes the place of the first digit, and a negative number counts down from the top. */
  lemma SignedHexMeans(b: Unit, c: Unit, d: Unit)
    requires HexDigit(b).Some? && HexDigit(c).Some? && HexDigit(d).Some?
    ensures var n := FourDigits(0, HexDigit(b).value, HexDigit(c).value, HexDigit(d).value);
      && 0 <= n < 0x1000
      && HexUnit([PLUS, b, c, d]) == Some(n as Unit)
      && HexUnit([MINUS, b, c, d]) == Some((if n == 0 then 0 else 0x1_0000 - n) as Unit)
  {
    HexDigitBound(b);
    HexDigitBound(c);
    HexDigitBound(d);
    ThreeHexValue(b, c, d);
    SignedUnit([b, c, d]);
    hide HexValue, HexDigit, HexUnit;
    assert [PLUS] + [b, c, d] == [PLUS, b, c, d] && [MINUS] + [b, c, d] == [MINUS, b, c, d];
  }

  lemma ThreeHexValue(b: Unit, c: Unit, d: Unit)
    requires HexDigit(b).Some? && HexDigit(c).Some? && HexDigit(d).Some?
    ensures HexValue([b, c, d]) == Some(FourDigits(0, HexDigit(b).value, HexDigit(c).value, HexDigit(d).value))
  {
    HexValueOnce([], b);
    HexValueOnce([b], c);
    HexValueOnce([b, c], d);
    hide HexValue, HexDigit;
    assert [] + [b] == [b] && [b] + [c] == [b, c] && [b, c] + [d] == [b, c, d];
  }

  lemma SignedUnit(digits: Str)
    requires digits != [] && HexValue(digits).Some? && 0 <= HexValue(digits).value < 0x1000
    ensures var n := HexValue(digits).value;
      && HexUnit([PLUS] + digits) == Some(n as Unit)
      && HexUnit([MINUS] + digits) == Some((if n == 0 then 0 else 0x1_0000 - n) as Unit)
  {
    hide HexValue;
    assert ([PLUS] + digits)[1..] == digits && ([MINUS] + digits)[1..] == digits;
  }

  lemma HexDigitBound(u: Unit)
    ensures HexDigit(u).Some? ==> 0 <= HexDigit(u).value < 16 && u != MINUS && u != PLUS
  {
  }

  lemma FourHexValue(a: Unit, b: Unit, c: Unit, d: Unit)
    requires HexDigit(a).Some? && HexDigit(b).Some? && HexDigit(c).Some? && HexDigit(d).Some?
    ensures HexValue([a, b, c, d])
         == Some(FourDigits(HexDigit(a).value, HexDigit(b).value, HexDigit(c).value, HexDigit(d).value))
  {
    HexValueOnce([], a);
    HexValueOnce([a], b);
    HexValueOnce([a, b], c);
    HexValueOnce([a, b, c], d);
    hide HexValue, HexDigit;
    assert [] + [a] == [a] && [a] + [b] == [a, b] && [a, b] + [c] == [a, b, c] && [a, b, c] + [d] == [a, b, c, d];
  }

  lemma HexValueOnce(s: Str, u: Unit)
    ensures HexValue([]) == Some(0)
    ensures HexValue(s).Some? && HexDigit(u).Some? ==>
              HexValue(s + [u]) == Some(HexValue(s).value * 16 + HexDigit(u).value)
  {
    assert (s + [u])[..|s|] == s;
  }

  /** White space is that of JSON and more, but not a no-break space. */
  lemma WhiteSpaceMeans()
    ensures IsWhitespace(0x20) && IsWhitespace(0x09) && IsWhitespace(0x0A) && IsWhitespace(0x0D)
    ensures IsWhitespace(0x0B) && IsWhitespace(0x0C) && IsWhitespace(0x1C) && IsWhitespace(0x2003)
        && IsWhitespace(0x3000)
    ensures !IsWhitespace(0xA0) && !IsWhitespace(0x2007) && !IsWhitespace(0x202F) && !IsWhitespace(0x00)
        && !IsWhitespace(0x1B)
    ensures forall u: Unit :: 0x21 <= u <= 0x7F ==> !IsWhitespace(u)
  {
  }
}
