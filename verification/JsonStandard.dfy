// JSON as RFC 8259 defines it: which of the texts the writer and the reader deal in are standard,
// and where they depart from it.
module JsonStandard {
  import opened Wrappers
  import opened JsonText
  import opened JsonParser
  import opened JsonGrammar
  import RoundTrip = JsonRoundTrip
  import Writer = JsonWriter

  // ----- Strings (section 7) -----

  const SPACE: Unit := 0x20

  predicate IsHexDigit(u: Unit) {
    HexDigit(u).Some?
  }

  predicate StandardPiece(p: Piece) {
    match p
    case Plain(u) => u >= SPACE && u != QUOTE && u != BACKSLASH
    case Short(c) =>
      || c == QUOTE || c == BACKSLASH || c == 47 || c == LOWER_B || c == LOWER_F || c == LOWER_N || c == LOWER_R
          || c == LOWER_T
    case Hex(d) => |d| == 4 && IsHexDigit(d[0]) && IsHexDigit(d[1]) && IsHexDigit(d[2]) && IsHexDigit(d[3])
  }

  predicate StandardPieces(pieces: seq<Piece>) {
    forall i | 0 <= i < |pieces| :: StandardPiece(pieces[i])
  }

  /** Four hex digits stand for the code unit they name. */
  lemma HexMeans(d: Str)
    requires StandardPiece(Hex(d))
    ensures HexUnit(d).Some?
    ensures HexUnit(d).value as int
         == HexDigit(d[0]).value * 0x1000 + HexDigit(d[1]).value * 0x100 + HexDigit(d[2]).value * 0x10
             + HexDigit(d[3]).value
  {
    hide HexValue, HexDigit;
    assert d[..4] == d;
    NoHexDigits(d);
    HexStep(d, 0);
    HexStep(d, 1);
    HexStep(d, 2);
    HexStep(d, 3);
    HexDigitsBelow(d);
  }

  lemma NoHexDigits(d: Str)
    ensures HexValue(d[..0]) == Some(0)
  {
  }

  lemma HexStep(d: Str, k: nat)
    requires k < |d| && HexValue(d[..k]).Some? && HexDigit(d[k]).Some?
    ensures HexValue(d[..k + 1]) == Some(HexValue(d[..k]).value * 16 + HexDigit(d[k]).value)
  {
    assert d[..k + 1][..k] == d[..k];
    hide HexDigit;
  }

  lemma HexDigitsBelow(d: Str)
    ensures forall i | 0 <= i < |d| :: HexDigit(d[i]).Some? ==>
      0 <= HexDigit(d[i]).value < 16 && d[i] != MINUS && d[i] != PLUS
  {
  }

  lemma StandardPiecesOk(pieces: seq<Piece>)
    requires StandardPieces(pieces)
    ensures PiecesOk(pieces)
  {
    forall i | 0 <= i < |pieces| ensures PieceOk(pieces[i]) {
      assert StandardPiece(pieces[i]);
      if pieces[i].Hex? {
        HexMeans(pieces[i].digits);
      }
    }
    hide HexUnit;
  }

  // ----- What the writer's strings are -----

  /** No control character but the three that the writer has an escape for. */
  predicate OnlyEscapableControls(s: Str) {
    forall i | 0 <= i < |s| :: s[i] >= SPACE || s[i] == TAB || s[i] == NEWLINE || s[i] == RETURN
  }

  predicate NoControls(s: Str) {
    forall i | 0 <= i < |s| :: s[i] >= SPACE
  }

  lemma {:induction false} EscapedControls(s: Str)
    ensures NoControls(EscapeEach(s)) <==> OnlyEscapableControls(s)
  {
    if s != [] {
      EscapedControls(s[1..]);
      var first, rest := EscapeUnit(s[0]), EscapeEach(s[1..]);
      assert EscapeEach(s) == first + rest;
      NoControlsJoin(first, rest);
      assert s == [s[0]] + s[1..];
      assert OnlyEscapableControls(s) <==> OnlyEscapableControls([s[0]]) && OnlyEscapableControls(s[1..]) by {
        assert forall i | 0 <= i < |s[1..]| :: s[1..][i] == s[i + 1];
        assert forall i | 0 < i < |s| :: s[i] == s[1..][i - 1];
      }
      assert first[0] >= SPACE || first == [s[0]];
    }
  }

  lemma NoControlsJoin(a: Str, b: Str)
    ensures NoControls(a + b) <==> NoControls(a) && NoControls(b)
  {
    assert forall i | 0 <= i < |a| :: (a + b)[i] == a[i];
    assert forall i | 0 <= i < |b| :: (a + b)[i + |a|] == b[i];
  }

  lemma {:induction false} StandardHasNoControls(pieces: seq<Piece>)
    requires StandardPieces(pieces)
    ensures NoControls(PiecesText(pieces))
  {
    if pieces != [] {
      StandardHasNoControls(pieces[1..]);
      assert StandardPiece(pieces[0]);
      NoControlsJoin(PieceText(pieces[0]), PiecesText(pieces[1..]));
    }
  }

  lemma StandardJoin(p: Piece, pieces: seq<Piece>)
    ensures StandardPieces([p] + pieces) <==> StandardPiece(p) && StandardPieces(pieces)
  {
    assert forall i | 0 <= i < |pieces| :: ([p] + pieces)[i + 1] == pieces[i];
    assert ([p] + pieces)[0] == p;
    assert forall i | 0 < i < |[p] + pieces| :: ([p] + pieces)[i] == pieces[i - 1];
    hide StandardPiece;
  }

  lemma EscapableJoin(u: Unit, s: Str)
    ensures OnlyEscapableControls([u] + s)
       <==> (u >= SPACE || u == TAB || u == NEWLINE || u == RETURN) && OnlyEscapableControls(s)
    ensures NoControls([u] + s) <==> u >= SPACE && NoControls(s)
    ensures RoundTrip.Plain([u] + s) <==> u != QUOTE && u != BACKSLASH && RoundTrip.Plain(s)
  {
    assert forall i | 0 <= i < |s| :: ([u] + s)[i + 1] == s[i];
    assert ([u] + s)[0] == u;
    assert forall i | 0 < i < |[u] + s| :: ([u] + s)[i] == s[i - 1];
  }

  lemma {:induction false} EscapePiecesStandard(s: Str)
    ensures StandardPieces(RoundTrip.EscapePieces(s)) <==> OnlyEscapableControls(s)
  {
    if s != [] {
      EscapePiecesStandard(s[1..]);
      assert s == [s[0]] + s[1..];
      EscapableJoin(s[0], s[1..]);
      StandardJoin(RoundTrip.EscapePiece(s[0]), RoundTrip.EscapePieces(s[1..]));
      hide StandardPieces, OnlyEscapableControls, NoControls, RoundTrip.Plain;
    }
  }

  lemma {:induction false} RawPiecesStandard(s: Str)
    requires RoundTrip.Plain(s)
    ensures StandardPieces(RoundTrip.RawPieces(s)) <==> NoControls(s)
  {
    if s != [] {
      assert s == [s[0]] + s[1..];
      EscapableJoin(s[0], s[1..]);
      RawPiecesStandard(s[1..]);
      StandardJoin(Plain(s[0]), RoundTrip.RawPieces(s[1..]));
      hide StandardPieces, OnlyEscapableControls, NoControls, RoundTrip.Plain;
    }
  }

  /** What the writer puts between the quotes is a standard string exactly when the string it writes
      has no control character but tab, newline and carriage return. */
  lemma EscapeStandardExact(s: Str)
    ensures (exists pieces :: StandardPieces(pieces) && PiecesText(pieces) == Escape(s)) <==> OnlyEscapableControls(s)
  {
    EscapeIsPerUnit(s);
    EscapedControls(s);
    if pieces :| StandardPieces(pieces) && PiecesText(pieces) == Escape(s) {
      StandardHasNoControls(pieces);
    }
    if OnlyEscapableControls(s) {
      RoundTrip.EscapePiecesSpell(s);
      EscapePiecesStandard(s);
      assert StandardPieces(RoundTrip.EscapePieces(s));
    }
  }

  /** The shortest string it fails for. */
  lemma ControlCharacterNotEscaped()
    ensures Escape([1]) == [1]
    ensures !exists pieces :: StandardPieces(pieces) && PiecesText(pieces) == Escape([1])
  {
    var s: Str := [1];
    EscapeOne(1);
    EscapeStandardExact(s);
    assert s[0] == 1;
  }

  // ----- What the reader makes of standard strings -----

  predicate Misread(p: Piece) {
    p == Short(LOWER_B) || p == Short(LOWER_F)
  }

  predicate NoneMisread(pieces: seq<Piece>) {
    forall i | 0 <= i < |pieces| :: !Misread(pieces[i])
  }

  /** The reader gives a string what it stands for exactly when it has no backslash b and no
      backslash f. */
  lemma {:induction false} TextMeansExact(pieces: seq<Piece>)
    ensures TextOf(pieces, false) == TextOf(pieces, true) <==> NoneMisread(pieces)
  {
    if pieces != [] {
      TextMeansExact(pieces[1..]);
      var p, rest := pieces[0], pieces[1..];
      assert pieces == [p] + rest;
      assert UnitOf(p, false) == UnitOf(p, true) <==> !Misread(p);
      assert TextOf(pieces, false) == [UnitOf(p, false)] + TextOf(rest, false);
      assert TextOf(pieces, true) == [UnitOf(p, true)] + TextOf(rest, true);
      ConsEqual(UnitOf(p, false), TextOf(rest, false), UnitOf(p, true), TextOf(rest, true));
      assert NoneMisread(pieces) <==> !Misread(p) && NoneMisread(rest) by {
        assert forall i | 0 <= i < |rest| :: rest[i] == pieces[i + 1];
        assert forall i | 0 < i < |pieces| :: pieces[i] == rest[i - 1];
      }
    }
  }

  lemma ConsEqual(x: Unit, a: Str, y: Unit, b: Str)
    ensures [x] + a == [y] + b <==> x == y && a == b
  {
    assert ([x] + a)[0] == x && ([y] + b)[0] == y;
    assert ([x] + a)[1..] == a && ([y] + b)[1..] == b;
  }

  /** parseString on a standard string: the text it stands for, and the position behind it, exactly
      when nothing in it is misread. */
  lemma StandardStringExact(pieces: seq<Piece>, rest: Str)
    requires StandardPieces(pieces)
    ensures StringAt(Quoted(pieces) + rest, 0) == Ok((TextOf(pieces, true), |Quoted(pieces)|)) <==> NoneMisread(pieces)
  {
    var s := Quoted(pieces) + rest;
    StandardPiecesOk(pieces);
    assert At(s, 0, Quoted(pieces));
    QuotedReads(s, 0, pieces);
    TextMeansExact(pieces);
    hide Quoted, TextOf, StringAt, NoneMisread;
  }

  /** A backspace, as the standard spells it, is read as a letter. */
  lemma BackspaceMisread()
    ensures StringAt([QUOTE, BACKSLASH, LOWER_B, QUOTE], 0) == Ok(([LOWER_B], 4))
    ensures TextOf([Short(LOWER_B)], true) == [BACKSPACE]
  {
    var pieces, s: Str := [Short(LOWER_B)], [QUOTE, BACKSLASH, LOWER_B, QUOTE];
    assert pieces[1..] == [] && s[0..4] == s;
    assert PiecesText(pieces) == PieceText(Short(LOWER_B)) + PiecesText([]) == [BACKSLASH, LOWER_B];
    assert Quoted(pieces) == s;
    QuotedReads(s, 0, pieces);
    assert TextOf(pieces, false) == [LOWER_B] + TextOf([], false) == [LOWER_B];
    assert TextOf(pieces, true) == [BACKSPACE] + TextOf([], true) == [BACKSPACE];
    hide StringAt;
  }

  // ----- Numbers (section 6) -----

  datatype Exponent = Exponent(letter: Unit, sign: Str, digits: Str)

  datatype NumberSpelling = NumberSpelling(minus: bool, whole: Str, fraction: Option<Str>, exponent: Option<Exponent>)

  function FractionText(f: Option<Str>): Str {
    if f.None? then [] else [DOT] + f.value
  }

  function ExponentText(e: Option<Exponent>): Str {
    if e.None? then [] else [e.value.letter] + (e.value.sign + e.value.digits)
  }

  function Mantissa(n: NumberSpelling): Str {
    n.whole + FractionText(n.fraction)
  }

  function Spelled(n: NumberSpelling): Str {
    (if n.minus then [MINUS] else []) + (Mantissa(n) + ExponentText(n.exponent))
  }

  predicate ExponentOk(e: Exponent) {
    && (e.letter == LOWER_E || e.letter == UPPER_E) && (e.sign == [] || e.sign == [PLUS] || e.sign == [MINUS])
    && e.digits != [] && AllDigits(e.digits)
  }

  predicate SpellingOk(n: NumberSpelling) {
    && n.whole != [] && AllDigits(n.whole) && (n.whole[0] == DIGIT_0 ==> |n.whole| == 1)
    && (n.fraction.Some? ==> n.fraction.value != [] && AllDigits(n.fraction.value))
    && (n.exponent.Some? ==> ExponentOk(n.exponent.value))
  }

  predicate IsInteger(n: NumberSpelling) {
    n.fraction.None? && n.exponent.None?
  }

  function IntegerValue(n: NumberSpelling): int
    requires SpellingOk(n)
  {
    var magnitude: int := DigitsValue(n.whole);
    if n.minus then -magnitude else magnitude
  }

  /** The reader's answer to each spelling of a number. */
  function NumberMeaning(n: NumberSpelling): Result<Json, ParseError>
    requires SpellingOk(n)
  {
    if !IsInteger(n) then Ok(JDouble(Spelled(n)))
    else if RoundTrip.IsLong(IntegerValue(n)) then Ok(RoundTrip.ReadNumber(IntegerValue(n)))
    else Err(NumberFormat)
  }

  lemma {:induction false} ExponentStarts(a: Str, b: Str)
    requires forall i | 0 <= i < |a| :: a[i] != LOWER_E && a[i] != UPPER_E
    requires b != [] ==> b[0] == LOWER_E || b[0] == UPPER_E
    ensures ExponentAt(a + b) == |a|
  {
    if a == [] {
      assert a + b == b;
    } else {
      assert (a + b)[1..] == a[1..] + b;
      ExponentStarts(a[1..], b);
    }
  }

  lemma MantissaOk(n: NumberSpelling)
    requires SpellingOk(n)
    ensures IsMantissa(Mantissa(n)) && Mantissa(n)[0] == n.whole[0]
    ensures forall i | 0 <= i < |Mantissa(n)| :: IsDigit(Mantissa(n)[i]) || Mantissa(n)[i] == DOT
    ensures n.fraction.Some? ==> |n.whole| < |Mantissa(n)| && Mantissa(n)[|n.whole|] == DOT
  {
    var m := Mantissa(n);
    assert IsDigit(m[0]);
    forall i | 0 <= i < |m| ensures IsDigit(m[i]) || (m[i] == DOT && i == |n.whole|) {
      if i < |n.whole| {
        assert m[i] == n.whole[i];
      } else if i > |n.whole| {
        assert m[i] == n.fraction.value[i - |n.whole| - 1];
      }
    }
  }

  lemma ExponentTextOk(e: Option<Exponent>)
    requires e.Some? ==> ExponentOk(e.value)
    ensures forall i | 0 <= i < |ExponentText(e)| :: IsNumberUnit(ExponentText(e)[i])
    ensures e.Some? ==> var t := ExponentText(e);
      && t != [] && IsFloatUnit(t[0]) && DropSign(t[1..]) == e.value.digits
  {
    if e.Some? {
      var t := ExponentText(e);
      assert t[1..] == e.value.sign + e.value.digits;
      forall i | 0 < i < |t| ensures IsNumberUnit(t[i]) {
        assert t[i] == t[1..][i - 1];
      }
      if e.value.sign == [] {
        assert t[1..] == e.value.digits && IsDigit(e.value.digits[0]);
      } else {
        assert t[1..][1..] == e.value.digits;
      }
    }
  }

  function Unsigned(n: NumberSpelling): Str {
    Mantissa(n) + ExponentText(n.exponent)
  }

  ghost predicate HasFloatUnit(text: Str) {
    exists i :: 0 <= i < |text| && IsFloatUnit(text[i])
  }

  lemma FloatUnitJoin(a: Str, b: Str)
    ensures HasFloatUnit(a + b) <==> HasFloatUnit(a) || HasFloatUnit(b)
  {
    assert forall i | 0 <= i < |a| :: (a + b)[i] == a[i];
    assert forall i | 0 <= i < |b| :: (a + b)[i + |a|] == b[i];
    assert forall i | |a| <= i < |a + b| :: (a + b)[i] == b[i - |a|];
  }

  predicate NumberUnits(text: Str) {
    forall i | 0 <= i < |text| :: IsNumberUnit(text[i])
  }

  lemma UnsignedUnits(n: NumberSpelling)
    requires SpellingOk(n)
    ensures Unsigned(n) != [] && IsDigit(Unsigned(n)[0])
    ensures NumberUnits(Unsigned(n))
    ensures HasFloatUnit(Unsigned(n)) <==> !IsInteger(n)
  {
    var m, e := Mantissa(n), ExponentText(n.exponent);
    MantissaOk(n);
    ExponentTextOk(n.exponent);
    FloatUnitJoin(m, e);
    MantissaFloat(n);
    if n.exponent.Some? {
      assert IsFloatUnit(e[0]);
    } else {
      assert e == [];
    }
    hide IsMantissa, DropSign, Mantissa, ExponentText;
  }

  lemma MantissaFloat(n: NumberSpelling)
    requires SpellingOk(n)
    ensures HasFloatUnit(Mantissa(n)) <==> n.fraction.Some?
  {
    FloatUnitJoin(n.whole, FractionText(n.fraction));
    assert !HasFloatUnit(n.whole);
    if n.fraction.Some? {
      assert FractionText(n.fraction)[0] == DOT;
    }
  }

  lemma SpelledParts(n: NumberSpelling)
    requires SpellingOk(n)
    ensures DropSign(Spelled(n)) == Unsigned(n) && NumberTextOk(Spelled(n))
    ensures HasFloatUnit(Spelled(n)) <==> !IsInteger(n)
  {
    UnsignedUnits(n);
    SignIs(n);
    hide *;
    SignedUnits(Unsigned(n));
  }

  lemma SignIs(n: NumberSpelling)
    ensures Spelled(n) == if n.minus then [MINUS] + Unsigned(n) else Unsigned(n)
  {
    assert [] + Unsigned(n) == Unsigned(n);
    hide Mantissa, ExponentText;
  }

  lemma SignedUnits(tail: Str)
    requires tail != [] && IsDigit(tail[0]) && NumberUnits(tail)
    ensures DropSign(tail) == tail && NumberTextOk(tail)
    ensures DropSign([MINUS] + tail) == tail && NumberTextOk([MINUS] + tail)
    ensures HasFloatUnit([MINUS] + tail) <==> HasFloatUnit(tail)
  {
    assert ([MINUS] + tail)[1..] == tail;
    FloatUnitJoin([MINUS], tail);
    assert !HasFloatUnit([MINUS]);
    hide HasFloatUnit;
  }

  lemma DoubleSpelling(n: NumberSpelling)
    requires SpellingOk(n)
    ensures IsDoubleText(Spelled(n))
  {
    SpelledParts(n);
    MantissaOk(n);
    ExponentTextOk(n.exponent);
    UnsignedIs(n);
    hide Mantissa, ExponentText, Spelled, IsMantissa, Unsigned;
    DoubleText(Spelled(n), Mantissa(n), ExponentText(n.exponent));
  }

  lemma UnsignedIs(n: NumberSpelling)
    ensures Unsigned(n) == Mantissa(n) + ExponentText(n.exponent)
    ensures n.exponent.None? ==> ExponentText(n.exponent) == []
    ensures n.exponent.Some? ==> ExponentText(n.exponent)[0] == n.exponent.value.letter
  {
  }

  lemma DoubleText(text: Str, m: Str, e: Str)
    requires DropSign(text) == m + e && IsMantissa(m)
    requires forall i | 0 <= i < |m| :: IsDigit(m[i]) || m[i] == DOT
    requires e != [] ==> (e[0] == LOWER_E || e[0] == UPPER_E) && DropSign(e[1..]) != [] && AllDigits(DropSign(e[1..]))
    ensures IsDoubleText(text)
  {
    ExponentStarts(m, e);
    assert (m + e)[..|m|] == m;
    if e != [] {
      assert (m + e)[|m| + 1..] == e[1..];
    }
    hide IsMantissa;
  }

  lemma IntegerSpelling(n: NumberSpelling)
    requires SpellingOk(n) && IsInteger(n)
    ensures ParseLong(Spelled(n)) == if RoundTrip.IsLong(IntegerValue(n)) then Some(IntegerValue(n)) else None
  {
    var text := Spelled(n);
    assert Mantissa(n) + [] == n.whole;
    assert IsDigit(n.whole[0]);
    if n.minus {
      assert text[0] == MINUS && text[1..] == n.whole;
    } else {
      assert text == n.whole;
    }
  }

  lemma NumberMeans(n: NumberSpelling)
    requires SpellingOk(n)
    ensures NumberTextOk(Spelled(n)) && NumberOf(Spelled(n)) == NumberMeaning(n)
  {
    SpelledParts(n);
    if IsInteger(n) {
      IntegerSpelling(n);
    } else {
      DoubleSpelling(n);
    }
    hide Spelled, IsDoubleText, ParseLong, IntegerValue, SpellingOk;
  }

  // ----- Whole texts (section 2) -----

  predicate StandardBlank(s: Str) {
    forall i | 0 <= i < |s| :: s[i] == SPACE || s[i] == TAB || s[i] == NEWLINE || s[i] == RETURN
  }

  ghost predicate StandardNumber(text: Str) {
    exists n :: SpellingOk(n) && Spelled(n) == text
  }

  ghost predicate Standard(t: Tree)
    decreases t
  {
    match t
    case TNull => true
    case TBool(_) => true
    case TNumber(text) => StandardNumber(text)
    case TString(pieces) => StandardPieces(pieces)
    case TArray(items, pad) =>
      && StandardBlank(pad)
      && forall i | 0 <= i < |items| ::
           StandardBlank(items[i].before) && StandardBlank(items[i].after) && Standard(items[i].value)
    case TObject(members, pad) =>
      && StandardBlank(pad)
      && forall i | 0 <= i < |members| ::
           && StandardBlank(members[i].before) && StandardBlank(members[i].beforeColon)
           && StandardBlank(members[i].afterColon) && StandardBlank(members[i].after)
           && StandardPieces(members[i].name) && Standard(members[i].value)
  }

  /** Every number without fraction and exponent is a long. */
  ghost predicate IntegersFit(t: Tree)
    decreases t
  {
    match t
    case TNumber(text) => forall n | SpellingOk(n) && Spelled(n) == text && IsInteger(n) ::
        RoundTrip.IsLong(IntegerValue(n))
    case TArray(items, _) => forall i | 0 <= i < |items| :: IntegersFit(items[i].value)
    case TObject(members, _) => forall i | 0 <= i < |members| :: IntegersFit(members[i].value)
    case _ => true
  }

  /** No string and no name in the tree has a backslash b or a backslash f. */
  predicate Faithful(t: Tree)
    decreases t
  {
    match t
    case TString(pieces) => NoneMisread(pieces)
    case TArray(items, _) => forall i | 0 <= i < |items| :: Faithful(items[i].value)
    case TObject(members, _) =>
      forall i | 0 <= i < |members| :: NoneMisread(members[i].name) && Faithful(members[i].value)
    case _ => true
  }

  lemma StandardNumberFits(text: Str)
    requires StandardNumber(text)
    ensures NumberTextOk(text)
    ensures NumberOf(text).Ok? <==> forall n | SpellingOk(n) && Spelled(n) == text && IsInteger(n) ::
        RoundTrip.IsLong(IntegerValue(n))
  {
    hide Spelled, SpellingOk, IntegerValue, NumberTextOk;
    var n :| SpellingOk(n) && Spelled(n) == text;
    NumberMeans(n);
    forall m | SpellingOk(m) && Spelled(m) == text ensures NumberOf(text) == NumberMeaning(m) {
      NumberMeans(m);
    }
    hide NumberOf;
  }

  /** A standard text is one the reader can follow, and its numbers fit exactly when its integers do. */
  lemma {:induction false} StandardReadable(t: Tree)
    requires Standard(t)
    ensures Readable(t) && (NumbersFit(t) <==> IntegersFit(t))
    decreases t
  {
    match t {
      case TNumber(text) => StandardNumberFits(text);
      case TString(pieces) => StandardPiecesOk(pieces);
      case TArray(items, _) =>
        forall i | 0 <= i < |items|
          ensures Readable(items[i].value) && (NumbersFit(items[i].value) <==> IntegersFit(items[i].value))
        {
          StandardReadable(items[i].value);
        }
      case TObject(members, _) =>
        forall i | 0 <= i < |members|
          ensures PiecesOk(members[i].name) && Readable(members[i].value)
          ensures NumbersFit(members[i].value) <==> IntegersFit(members[i].value)
        {
          StandardPiecesOk(members[i].name);
          StandardReadable(members[i].value);
        }
      case _ =>
    }
  }

  /** Where nothing is misread, the reader's value is the standard's. */
  lemma {:induction false} FaithfulMeans(t: Tree)
    requires Faithful(t)
    ensures ValueOfTree(t, false) == ValueOfTree(t, true)
    decreases t, Length(t) + 1
  {
    match t {
      case TString(pieces) => TextMeansExact(pieces);
      case TArray(items, _) => ItemsMean(t, |items|);
      case TObject(members, _) => MembersMean(t, |members|);
      case _ =>
    }
  }

  lemma {:induction false} ItemsMean(t: Tree, n: nat)
    requires Faithful(t) && t.TArray? && n <= |t.items|
    ensures ItemsOf(t, n, false) == ItemsOf(t, n, true)
    decreases t, n
  {
    if n > 0 {
      ItemsMean(t, n - 1);
      FaithfulMeans(t.items[n - 1].value);
    }
  }

  lemma {:induction false} MembersMean(t: Tree, n: nat)
    requires Faithful(t) && t.TObject? && n <= |t.members|
    ensures MembersOf(t, n, false) == MembersOf(t, n, true)
    decreases t, n
  {
    if n > 0 {
      MembersMean(t, n - 1);
      TextMeansExact(t.members[n - 1].name);
      FaithfulMeans(t.members[n - 1].value);
    }
  }

  lemma {:induction false} TrimFront(before: Str, tail: Str)
    requires StandardBlank(before) && tail != [] && tail[0] > SPACE
    ensures Trim(before + tail) == Trim(tail)
  {
    if before == [] {
      assert before + tail == tail;
    } else {
      assert (before + tail)[1..] == before[1..] + tail;
      TrimFront(before[1..], tail);
    }
  }

  lemma {:induction false} TrimBack(body: Str, rest: Str) returns (k: nat)
    requires body != [] && body[0] > SPACE && body[|body| - 1] > SPACE
    ensures k <= |rest| && Trim(body + rest) == body + rest[..k]
    decreases |rest|
  {
    var s := body + rest;
    if rest == [] || rest[|rest| - 1] > SPACE {
      assert s[|s| - 1] == if rest == [] then body[|body| - 1] else rest[|rest| - 1];
      assert rest[..|rest|] == rest;
      k := |rest|;
    } else {
      assert s[..|s| - 1] == body + rest[..|rest| - 1];
      k := TrimBack(body, rest[..|rest| - 1]);
      assert rest[..|rest| - 1][..k] == rest[..k];
    }
  }

  lemma {:induction false} WriteMembersEnds(t: Tree, i: nat)
    requires t.TObject? && i < |t.members|
    ensures WriteMembers(t, i) != [] && WriteMembers(t, i)[|WriteMembers(t, i)| - 1] == CLOSE_BRACE
    decreases |t.members| - i
  {
    if i + 1 < |t.members| {
      WriteMembersEnds(t, i + 1);
    }
    var m := t.members[i];
    var tail := if i + 1 == |t.members| then [CLOSE_BRACE] else [COMMA] + WriteMembers(t, i + 1);
    assert WriteMembers(t, i)
        == m.before + (Quoted(m.name) + (m.beforeColon + ([COLON]
            + (m.afterColon + (Write(m.value) + (m.after + tail))))));
    hide WriteMembers, Quoted, Write;
  }

  lemma ObjectBraces(t: Tree)
    requires t.TObject?
    ensures var s := Write(t); s != [] && s[0] == OPEN_BRACE && s[|s| - 1] == CLOSE_BRACE
  {
    WriteOnce(t);
    if t.members != [] {
      WriteMembersEnds(t, 0);
    }
    hide Write, WriteMembers;
  }

  /** parseObject on any standard object text, spread over any white space and followed by anything:
      its members as this reader takes them, or a NumberFormatException exactly when some integer
      is no long. */
  lemma StandardTextReads(t: Tree, before: Str, rest: Str)
    requires Standard(t) && t.TObject? && StandardBlank(before)
    ensures ObjectOf(before + Write(t) + rest)
         == if IntegersFit(t) then Ok(MembersOf(t, |t.members|, false)) else Err(NumberFormat)
  {
    hide *;
    var body := Write(t);
    ObjectBraces(t);
    BracesAreDark();
    Regroup(before, body, rest);
    assert (body + rest)[0] == body[0];
    TrimFront(before, body + rest);
    var k := TrimBack(body, rest);
    var s := body + rest[..k];
    NotBlank(before, body, rest);
    StandardReadable(t);
    StartsWith(body, rest[..k]);
    TreeReads(s, 0, t);
    AnswerIs(t, |body|);
    ContainerOnce(t);
    Unwrap(before + body + rest, s, t, |body|);
  }

  lemma BracesAreDark()
    ensures OPEN_BRACE > SPACE && CLOSE_BRACE > SPACE && !IsWhitespace(OPEN_BRACE)
  {
  }

  lemma NotBlank(before: Str, body: Str, rest: Str)
    requires body != [] && !IsWhitespace(body[0])
    ensures !IsBlank(before + body + rest)
  {
    assert (before + body + rest)[|before|] == body[0];
  }

  lemma StartsWith(body: Str, rest: Str)
    ensures At(body + rest, 0, body)
  {
  }

  lemma Unwrap(json: Str, s: Str, t: Tree, q: nat)
    requires !IsBlank(json) && Trim(json) == s && t.TObject?
    requires ValueAt(s, 0) == if NumbersFit(t) then Ok((JObject(MembersOf(t, |t.members|, false)), q))
        else Err(NumberFormat)
    ensures ObjectOf(json) == if NumbersFit(t) then Ok(MembersOf(t, |t.members|, false)) else Err(NumberFormat)
  {
    hide IsBlank, Trim, ValueAt, NumbersFit, MembersOf;
  }

  /** So where nothing is misread the standard's meaning is what parseObject gives, exactly when every
      integer is a long. */
  lemma StandardTextMeans(t: Tree, before: Str, rest: Str)
    requires Standard(t) && t.TObject? && StandardBlank(before) && Faithful(t)
    ensures ObjectOf(before + Write(t) + rest) == Ok(MembersOf(t, |t.members|, true)) <==> IntegersFit(t)
  {
    StandardTextReads(t, before, rest);
    MembersMean(t, |t.members|);
    hide *;
  }

  // ----- Which of the writer's documents are standard -----

  lemma {:induction false} DigitsLead(n: nat)
    ensures n > 0 ==> Digits(n)[0] != DIGIT_0
    ensures Digits(0) == [DIGIT_0]
  {
    if n >= 10 {
      DigitsLead(n / 10);
      assert Digits(n)[0] == Digits(n / 10)[0];
    }
  }

  lemma DecimalStandard(n: int)
    ensures StandardNumber(Decimal(n))
  {
    var whole := Digits(if n < 0 then -n else n);
    DigitsLead(if n < 0 then -n else n);
    var spelling := NumberSpelling(n < 0, whole, None, None);
    hide Digits;
    assert Mantissa(spelling) + ExponentText(None) == whole;
    assert [] + whole == whole;
    assert SpellingOk(spelling) && Spelled(spelling) == Decimal(n);
  }

  /** Strings and escaped keys have no control character but the three with an escape, keys that are
      written raw have none, and doubles are spelled as the standard says. */
  ghost predicate Presentable(d: Writer.Doc) {
    match d
    case DString(s) => OnlyEscapableControls(s)
    case DDouble(token) => StandardNumber(token)
    case DObject(fields) =>
      forall i | 0 <= i < |fields| :: PresentableKey(fields[i].key) && Presentable(fields[i].value)
    case _ => true
  }

  predicate PresentableKey(key: Writer.Key) {
    match key
    case Raw(name) => NoControls(name)
    case Escaped(name) => OnlyEscapableControls(name)
  }

  lemma KeyStandard(key: Writer.Key)
    requires key.Raw? ==> RoundTrip.Plain(key.name)
    ensures StandardPieces(RoundTrip.KeyPieces(key)) <==> PresentableKey(key)
  {
    match key
    case Raw(name) => RawPiecesStandard(name);
    case Escaped(name) => EscapePiecesStandard(name);
  }

  ghost predicate MemberStandard(d: Writer.Doc, i: nat)
    requires d.DObject? && i < |d.fields|
  {
    StandardPieces(RoundTrip.KeyPieces(d.fields[i].key)) && Standard(RoundTrip.TreeOf(d.fields[i].value))
  }

  lemma ObjectStandard(d: Writer.Doc)
    requires d.DObject?
    ensures Standard(RoundTrip.TreeOf(d)) <==> forall i | 0 <= i < |d.fields| :: MemberStandard(d, i)
  {
    RoundTrip.TreeOnce(d);
    var t := RoundTrip.TreeOf(d);
    hide RoundTrip.TreeOf, RoundTrip.KeyPieces, StandardPieces;
    if Standard(t) {
      forall i | 0 <= i < |d.fields| ensures MemberStandard(d, i) {
        assert t.members[i].name == RoundTrip.KeyPieces(d.fields[i].key);
      }
    }
    if forall i | 0 <= i < |d.fields| :: MemberStandard(d, i) {
      forall i | 0 <= i < |t.members| ensures StandardPieces(t.members[i].name) && Standard(t.members[i].value) {
        assert MemberStandard(d, i);
      }
    }
  }

  /** What the writer prints is standard exactly when the document is presentable. */
  lemma {:induction false} DocStandardExact(d: Writer.Doc)
    requires RoundTrip.Printable(d)
    ensures Standard(RoundTrip.TreeOf(d)) <==> Presentable(d)
    decreases d, 0
  {
    match d {
      case DString(s) => EscapePiecesStandard(s);
      case DBool(_) =>
      case DNumber(n) => DecimalStandard(n);
      case DDouble(_) =>
      case DObject(fields) =>
        ObjectStandard(d);
        hide Standard;
        forall i | 0 <= i < |fields|
          ensures MemberStandard(d, i) <==> PresentableKey(fields[i].key) && Presentable(fields[i].value)
        {
          MemberStandardExact(d, i);
        }
    }
  }

  lemma MemberStandardExact(d: Writer.Doc, i: nat)
    requires d.DObject? && i < |d.fields| && RoundTrip.Printable(d)
    ensures MemberStandard(d, i) <==> PresentableKey(d.fields[i].key) && Presentable(d.fields[i].value)
    decreases d, 0, 0
  {
    assert RoundTrip.Printable(d.fields[i].value);
    KeyStandard(d.fields[i].key);
    DocStandardExact(d.fields[i].value);
  }

  /** A printed double need not be standard for the reader, but words are refused by it. */
  lemma WordsRefused()
    ensures ValueAt(Java("NaN"), 0) == Err(NumberFormat)
    ensures ValueAt(Java("Infinity"), 0) == Err(NumberFormat)
    ensures ValueAt(Java("-Infinity"), 0) == Err(NumberFormat)
  {
    var nan, infinity, negative := Java("NaN"), Java("Infinity"), Java("-Infinity");
    assert nan[0] == 78 && infinity[0] == 73 && negative[0] == MINUS && negative[1] == 73;
    NoNumber(nan);
    NoNumber(infinity);
    NumberChosen(negative, 0);
    assert NumberEnd(negative, 1) == 1 && NumberEnd(negative, 0) == 1;
    assert negative[0..1] == [MINUS];
    assert NumberOf([MINUS]).Err?;
    hide ValueAt;
  }

  lemma NoNumber(s: Str)
    requires s != [] && (s[0] == 78 || s[0] == 73)
    ensures ValueAt(s, 0) == Err(NumberFormat)
  {
    assert SkipWhitespace(s, 0) == 0 && NumberEnd(s, 0) == 0 && s[0..0] == [];
    assert NumberOf([]) == Err(NumberFormat);
    hide ObjectAt, ArrayAt, StringAt, BoolAt, NumberOf;
  }
}
