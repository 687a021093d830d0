// Java text for the JSON writer and reader: strings of UTF-16 code units, the escape chain, and
// decimal numbers.
module JsonText {
  import opened Wrappers

  /** A Java char: any UTF-16 code unit, lone surrogates included. */
  newtype Unit = u: int | 0 <= u < 0x1_0000

  type Str = seq<Unit>

  const TAB: Unit := 9
  const NEWLINE: Unit := 10
  const RETURN: Unit := 13
  const QUOTE: Unit := 34
  const PLUS: Unit := 43
  const COMMA: Unit := 44
  const MINUS: Unit := 45
  const DOT: Unit := 46
  const DIGIT_0: Unit := 48
  const DIGIT_9: Unit := 57
  const COLON: Unit := 58
  const UPPER_E: Unit := 69
  const OPEN_BRACKET: Unit := 91
  const BACKSLASH: Unit := 92
  const CLOSE_BRACKET: Unit := 93
  const LOWER_E: Unit := 101
  const LOWER_F: Unit := 102
  const LOWER_N: Unit := 110
  const LOWER_R: Unit := 114
  const LOWER_T: Unit := 116
  const LOWER_U: Unit := 117
  const OPEN_BRACE: Unit := 123
  const CLOSE_BRACE: Unit := 125

  const TRUE_TEXT: Str := [116, 114, 117, 101]
  const FALSE_TEXT: Str := [102, 97, 108, 115, 101]

  /** The characters by their names. */
  lemma UnitsMean()
    ensures Java("\t\n\r") == [TAB, NEWLINE, RETURN]
    ensures Java("\"+,-./09:E") == [QUOTE, PLUS, COMMA, MINUS, DOT, 47, DIGIT_0, DIGIT_9, COLON, UPPER_E]
    ensures Java("[\\]efnrtu{}") == [OPEN_BRACKET, BACKSLASH, CLOSE_BRACKET, LOWER_E, LOWER_F, LOWER_N, LOWER_R,
                                     LOWER_T, LOWER_U, OPEN_BRACE, CLOSE_BRACE]
    ensures Java("true") == TRUE_TEXT && Java("false") == FALSE_TEXT
  {
  }

  /** A literal of characters below 0x10000 as a Java string. */
  function Java(literal: string): (s: Str)
    ensures |s| == |literal|
    ensures forall i | 0 <= i < |s| :: literal[i] as int < 0x1_0000 ==> s[i] as int == literal[i] as int
  {
    seq(|literal|, i requires 0 <= i < |literal| => (literal[i] as int % 0x1_0000) as Unit)
  }

  lemma Regroup(a: Str, b: Str, c: Str)
    ensures (a + b) + c == a + (b + c)
  {
  }

  // ----- Escaping -----

  /** String.replace, for a target of one character. */
  function Replace(s: Str, target: Unit, replacement: Str): Str {
    if s == [] then []
    else (if s[0] == target then replacement else [s[0]]) + Replace(s[1..], target, replacement)
  }

  /** Json.escape: five replaces, one after the other. */
  function Escape(s: Str): Str {
    var a := Replace(s, BACKSLASH, [BACKSLASH, BACKSLASH]);
    var b := Replace(a, QUOTE, [BACKSLASH, QUOTE]);
    var c := Replace(b, NEWLINE, [BACKSLASH, LOWER_N]);
    var d := Replace(c, RETURN, [BACKSLASH, LOWER_R]);
    Replace(d, TAB, [BACKSLASH, LOWER_T])
  }

  function EscapeUnit(u: Unit): Str {
    if u == BACKSLASH then [BACKSLASH, BACKSLASH]
    else if u == QUOTE then [BACKSLASH, QUOTE]
    else if u == NEWLINE then [BACKSLASH, LOWER_N]
    else if u == RETURN then [BACKSLASH, LOWER_R]
    else if u == TAB then [BACKSLASH, LOWER_T]
    else [u]
  }

  function EscapeEach(s: Str): Str {
    if s == [] then [] else EscapeUnit(s[0]) + EscapeEach(s[1..])
  }

  lemma {:induction false} ReplaceAppend(a: Str, b: Str, target: Unit, replacement: Str)
    ensures Replace(a + b, target, replacement) == Replace(a, target, replacement) + Replace(b, target, replacement)
  {
    if a == [] {
      assert a + b == b;
    } else {
      assert (a + b)[1..] == a[1..] + b;
      ReplaceAppend(a[1..], b, target, replacement);
    }
  }

  lemma EscapeAppend(a: Str, b: Str)
    ensures Escape(a + b) == Escape(a) + Escape(b)
  {
    var a1, b1 := Replace(a, BACKSLASH, [BACKSLASH, BACKSLASH]), Replace(b, BACKSLASH, [BACKSLASH, BACKSLASH]);
    ReplaceAppend(a, b, BACKSLASH, [BACKSLASH, BACKSLASH]);
    var a2, b2 := Replace(a1, QUOTE, [BACKSLASH, QUOTE]), Replace(b1, QUOTE, [BACKSLASH, QUOTE]);
    ReplaceAppend(a1, b1, QUOTE, [BACKSLASH, QUOTE]);
    var a3, b3 := Replace(a2, NEWLINE, [BACKSLASH, LOWER_N]), Replace(b2, NEWLINE, [BACKSLASH, LOWER_N]);
    ReplaceAppend(a2, b2, NEWLINE, [BACKSLASH, LOWER_N]);
    var a4, b4 := Replace(a3, RETURN, [BACKSLASH, LOWER_R]), Replace(b3, RETURN, [BACKSLASH, LOWER_R]);
    ReplaceAppend(a3, b3, RETURN, [BACKSLASH, LOWER_R]);
    ReplaceAppend(a4, b4, TAB, [BACKSLASH, LOWER_T]);
    hide Replace;
  }

  lemma ReplaceOne(u: Unit, target: Unit, replacement: Str)
    ensures Replace([u], target, replacement) == if u == target then replacement else [u]
  {
    assert [u][1..] == [];
  }

  lemma ReplaceTwo(u: Unit, v: Unit, target: Unit, replacement: Str)
    requires u != target && v != target
    ensures Replace([u, v], target, replacement) == [u, v]
  {
    ReplaceOne(v, target, replacement);
    assert [u, v][1..] == [v];
    assert [u] + [v] == [u, v];
  }

  /** An escape sequence already written survives the replaces that follow. */
  lemma EscapeOne(u: Unit)
    ensures Escape([u]) == EscapeUnit(u)
  {
    ReplaceOne(u, BACKSLASH, [BACKSLASH, BACKSLASH]);
    if u == BACKSLASH {
      ReplaceTwo(BACKSLASH, BACKSLASH, QUOTE, [BACKSLASH, QUOTE]);
      ReplaceTwo(BACKSLASH, BACKSLASH, NEWLINE, [BACKSLASH, LOWER_N]);
      ReplaceTwo(BACKSLASH, BACKSLASH, RETURN, [BACKSLASH, LOWER_R]);
      ReplaceTwo(BACKSLASH, BACKSLASH, TAB, [BACKSLASH, LOWER_T]);
    } else {
      ReplaceOne(u, QUOTE, [BACKSLASH, QUOTE]);
      ReplaceOne(u, NEWLINE, [BACKSLASH, LOWER_N]);
      ReplaceOne(u, RETURN, [BACKSLASH, LOWER_R]);
      ReplaceOne(u, TAB, [BACKSLASH, LOWER_T]);
      if u == QUOTE {
        ReplaceTwo(BACKSLASH, QUOTE, NEWLINE, [BACKSLASH, LOWER_N]);
        ReplaceTwo(BACKSLASH, QUOTE, RETURN, [BACKSLASH, LOWER_R]);
        ReplaceTwo(BACKSLASH, QUOTE, TAB, [BACKSLASH, LOWER_T]);
      } else if u == NEWLINE {
        ReplaceTwo(BACKSLASH, LOWER_N, RETURN, [BACKSLASH, LOWER_R]);
        ReplaceTwo(BACKSLASH, LOWER_N, TAB, [BACKSLASH, LOWER_T]);
      } else if u == RETURN {
        ReplaceTwo(BACKSLASH, LOWER_R, TAB, [BACKSLASH, LOWER_T]);
      }
    }
    hide Replace;
  }

  /** The five replaces are one pass that maps each character. */
  lemma {:induction false} EscapeIsPerUnit(s: Str)
    ensures Escape(s) == EscapeEach(s)
  {
    if s != [] {
      hide Escape, EscapeUnit;
      assert s == [s[0]] + s[1..];
      EscapeAppend([s[0]], s[1..]);
      EscapeOne(s[0]);
      EscapeIsPerUnit(s[1..]);
    }
  }

  // ----- Numbers -----

  const MIN_LONG: int := -0x8000_0000_0000_0000
  const MAX_LONG: int := 0x7FFF_FFFF_FFFF_FFFF
  const MIN_INTEGER: int := -0x8000_0000
  const MAX_INTEGER: int := 0x7FFF_FFFF

  predicate IsDigit(u: Unit) {
    DIGIT_0 <= u <= DIGIT_9
  }

  function Digits(n: nat): (s: Str)
    ensures s != [] && forall i | 0 <= i < |s| :: IsDigit(s[i])
  {
    if n < 10 then [(n + 48) as Unit] else Digits(n / 10) + [(n % 10 + 48) as Unit]
  }

  /** Integer.toString and Long.toString. */
  function Decimal(n: int): Str {
    if n < 0 then [MINUS] + Digits(-n) else Digits(n)
  }

  predicate AllDigits(s: Str) {
    forall i | 0 <= i < |s| :: IsDigit(s[i])
  }

  function DigitsValue(s: Str): nat
    requires AllDigits(s)
  {
    if s == [] then 0 else DigitsValue(s[..|s| - 1]) * 10 + (s[|s| - 1] as int - 48)
  }

  /** Long.parseLong; None for a NumberFormatException. */
  function ParseLong(s: Str): Option<int> {
    if s == [] then None
    else
      var signed := s[0] == MINUS || s[0] == PLUS;
      var digits := if signed then s[1..] else s;
      if digits == [] || !AllDigits(digits) then None
      else
        var magnitude: int := DigitsValue(digits);
        var value := if s[0] == MINUS then -magnitude else magnitude;
        if MIN_LONG <= value <= MAX_LONG then Some(value) else None
  }

  lemma {:induction false} DigitsRoundTrip(n: nat)
    ensures DigitsValue(Digits(n)) == n
  {
    var s := Digits(n);
    if n < 10 {
      assert s[..0] == [];
    } else {
      DigitsRoundTrip(n / 10);
      assert s[..|s| - 1] == Digits(n / 10);
    }
  }

  /** Every long reads back, the two extremes included. */
  lemma DecimalRoundTrip(n: int)
    requires MIN_LONG <= n <= MAX_LONG
    ensures ParseLong(Decimal(n)) == Some(n)
  {
    hide Digits, DigitsValue;
    var magnitude: nat := if n < 0 then -n else n;
    DigitsRoundTrip(magnitude);
    assert IsDigit(Digits(magnitude)[0]);
    if n < 0 {
      assert Decimal(n)[1..] == Digits(-n);
    }
  }

  /** How numbers are spelled, and which texts are longs. */
  lemma DecimalForm()
    ensures Decimal(0) == Java("0") && Decimal(-128) == Java("-128") && Decimal(9007) == Java("9007")
  {
    assert Digits(12) == Digits(1) + [50] && Digits(128) == Digits(12) + [56];
    assert Digits(90) == Digits(9) + [48] && Digits(900) == Digits(90) + [48] && Digits(9007) == Digits(900) + [55];
  }

  /** Exactly the 64-bit integers are read. */
  lemma LongsExactly(n: int)
    ensures ParseLong(Decimal(n)) == if -0x8000_0000_0000_0000 <= n < 0x8000_0000_0000_0000 then Some(n) else None
  {
    hide Digits, DigitsValue;
    var magnitude: nat := if n < 0 then -n else n;
    DigitsRoundTrip(magnitude);
    assert IsDigit(Digits(magnitude)[0]);
    if n < 0 {
      assert Decimal(n)[1..] == Digits(-n);
    }
  }
}
