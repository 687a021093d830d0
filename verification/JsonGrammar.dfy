// JSON texts as trees that keep every detail of the spelling, escapes and white space included, and
// what the reader makes of each of them.
module JsonGrammar {
  import opened Wrappers
  import opened JsonText
  import opened JsonParser

  /** A character of a string as it is spelled: itself, backslash and a letter, or four hex digits. */
  datatype Piece = Plain(u: Unit) | Short(c: Unit) | Hex(digits: Str)

  datatype Item = Item(before: Str, value: Tree, after: Str)

  datatype Member = Member(before: Str, name: seq<Piece>, beforeColon: Str, afterColon: Str, value: Tree, after: Str)

  /** `pad` is the white space inside empty brackets. */
  datatype Tree =
    | TNull
    | TBool(b: bool)
    | TNumber(text: Str)
    | TString(pieces: seq<Piece>)
    | TArray(items: seq<Item>, pad: Str)
    | TObject(members: seq<Member>, pad: Str)

  const NULL_TEXT: Str := [LOWER_N, LOWER_U, 108, 108]
  const LOWER_B: Unit := 98
  const BACKSPACE: Unit := 8
  const FORM_FEED: Unit := 12

  // ----- Spelling -----

  function PieceText(p: Piece): Str {
    match p
    case Plain(u) => [u]
    case Short(c) => [BACKSLASH, c]
    case Hex(digits) => [BACKSLASH, LOWER_U] + digits
  }

  function PiecesText(pieces: seq<Piece>): Str {
    if pieces == [] then [] else PieceText(pieces[0]) + PiecesText(pieces[1..])
  }

  function Quoted(pieces: seq<Piece>): Str {
    [QUOTE] + (PiecesText(pieces) + [QUOTE])
  }

  function Length(t: Tree): nat {
    match t
    case TArray(items, _) => |items| + 1
    case TObject(members, _) => |members| + 1
    case _ => 0
  }

  function Write(t: Tree): Str
    decreases t, Length(t)
  {
    match t
    case TNull => NULL_TEXT
    case TBool(b) => if b then TRUE_TEXT else FALSE_TEXT
    case TNumber(text) => text
    case TString(pieces) => Quoted(pieces)
    case TArray(items, pad) => [OPEN_BRACKET] + (if items == [] then pad + [CLOSE_BRACKET] else WriteItems(t, 0))
    case TObject(members, pad) => [OPEN_BRACE] + (if members == [] then pad + [CLOSE_BRACE] else WriteMembers(t, 0))
  }

  /** Item i and all that follows it, the closing bracket included. */
  function WriteItems(t: Tree, i: nat): Str
    requires t.TArray? && i < |t.items|
    decreases t, |t.items| - i
  {
    var item := t.items[i];
    item.before + (Write(item.value) + (item.after
      + if i + 1 == |t.items| then [CLOSE_BRACKET] else [COMMA] + WriteItems(t, i + 1)))
  }

  function WriteMembers(t: Tree, i: nat): Str
    requires t.TObject? && i < |t.members|
    decreases t, |t.members| - i
  {
    var m := t.members[i];
    m.before + (Quoted(m.name) + (m.beforeColon + ([COLON] + (m.afterColon + (Write(m.value) + (m.after
      + if i + 1 == |t.members| then [CLOSE_BRACE] else [COMMA] + WriteMembers(t, i + 1)))))))
  }

  // ----- Meaning -----

  /** What one piece stands for: to this reader, or as section 7 of RFC 8259 says. They differ in
      backslash b and backslash f only, which the reader takes for the letters. */
  function UnitOf(p: Piece, standard: bool): Unit {
    match p
    case Plain(u) => u
    case Short(c) =>
      if c == LOWER_N then NEWLINE else if c == LOWER_R then RETURN else if c == LOWER_T then TAB
      else if standard && c == LOWER_B then BACKSPACE
      else if standard && c == LOWER_F then FORM_FEED
      else c
    case Hex(digits) => if HexUnit(digits).Some? then HexUnit(digits).value else 0
  }

  function TextOf(pieces: seq<Piece>, standard: bool): Str {
    if pieces == [] then [] else [UnitOf(pieces[0], standard)] + TextOf(pieces[1..], standard)
  }

  function ValueOfTree(t: Tree, standard: bool): Json
    decreases t, Length(t)
  {
    match t
    case TNull => JNull
    case TBool(b) => JBool(b)
    case TNumber(text) => if NumberOf(text).Ok? then NumberOf(text).value else JNull
    case TString(pieces) => JString(TextOf(pieces, standard))
    case TArray(items, _) => JArray(ItemsOf(t, |items|, standard))
    case TObject(members, _) => JObject(MembersOf(t, |members|, standard))
  }

  function ItemsOf(t: Tree, n: nat, standard: bool): seq<Json>
    requires t.TArray? && n <= |t.items|
    decreases t, n
  {
    if n == 0 then [] else ItemsOf(t, n - 1, standard) + [ValueOfTree(t.items[n - 1].value, standard)]
  }

  /** The first n members; a later one replaces an earlier one of the same name. */
  function MembersOf(t: Tree, n: nat, standard: bool): map<Str, Json>
    requires t.TObject? && n <= |t.members|
    decreases t, n
  {
    if n == 0 then map[]
    else MembersOf(t, n - 1, standard)[TextOf(t.members[n - 1].name, standard) :=
        ValueOfTree(t.members[n - 1].value, standard)]
  }

  /** What the reader can tell apart: white space where white space may be, strings that end where
      they should, and numbers made of number characters. */
  predicate PieceOk(p: Piece) {
    match p
    case Plain(u) => u != QUOTE && u != BACKSLASH
    case Short(c) => c != LOWER_U
    case Hex(digits) => |digits| == 4 && HexUnit(digits).Some?
  }

  predicate PiecesOk(pieces: seq<Piece>) {
    forall i | 0 <= i < |pieces| :: PieceOk(pieces[i])
  }

  predicate NumberTextOk(text: Str) {
    text != [] && forall i | 0 <= i < |text| :: IsNumberUnit(text[i])
  }

  predicate Readable(t: Tree)
    decreases t
  {
    match t
    case TNull => true
    case TBool(_) => true
    case TNumber(text) => NumberTextOk(text)
    case TString(pieces) => PiecesOk(pieces)
    case TArray(items, pad) =>
      && IsBlank(pad)
      && forall i | 0 <= i < |items| :: IsBlank(items[i].before) && IsBlank(items[i].after) && Readable(items[i].value)
    case TObject(members, pad) =>
      && IsBlank(pad)
      && forall i | 0 <= i < |members| ::
           && IsBlank(members[i].before) && IsBlank(members[i].beforeColon)
           && IsBlank(members[i].afterColon) && IsBlank(members[i].after)
           && PiecesOk(members[i].name) && Readable(members[i].value)
  }

  /** Every number in the tree is one that Java can represent as the reader chooses to. */
  predicate NumbersFit(t: Tree)
    decreases t
  {
    match t
    case TNumber(text) => NumberOf(text).Ok?
    case TArray(items, _) => forall i | 0 <= i < |items| :: NumbersFit(items[i].value)
    case TObject(members, _) => forall i | 0 <= i < |members| :: NumbersFit(members[i].value)
    case _ => true
  }

  // ----- Text at a position -----

  predicate At(s: Str, p: nat, text: Str) {
    p + |text| <= |s| && s[p..p + |text|] == text
  }

  lemma AtSplit(s: Str, p: nat, a: Str, b: Str)
    requires At(s, p, a + b)
    ensures At(s, p, a) && At(s, p + |a|, b)
  {
    assert s[p..p + |a|] == (a + b)[..|a|];
    assert s[p + |a|..p + |a| + |b|] == (a + b)[|a|..];
  }

  lemma AtFirst(s: Str, p: nat, text: Str)
    requires text != [] && At(s, p, text)
    ensures p < |s| && s[p] == text[0]
  {
    assert s[p] == s[p..p + |text|][0];
  }

  /** White space, then something else. */
  lemma {:induction false} BlankSkipped(s: Str, p: nat, pad: Str)
    requires At(s, p, pad) && IsBlank(pad)
    requires p + |pad| < |s| && !IsWhitespace(s[p + |pad|])
    ensures SkipWhitespace(s, p) == p + |pad|
    decreases |pad|
  {
    if pad != [] {
      assert pad == [pad[0]] + pad[1..];
      AtSplit(s, p, [pad[0]], pad[1..]);
      AtFirst(s, p, [pad[0]]);
      BlankSkipped(s, p + 1, pad[1..]);
    }
  }

  // ----- Strings -----

  lemma PieceReads(s: Str, p: nat, piece: Piece, sofar: Str)
    requires PieceOk(piece) && At(s, p, PieceText(piece))
    ensures StringBody(s, p, sofar) == StringBody(s, p + |PieceText(piece)|, sofar + [UnitOf(piece, false)])
  {
    AtFirst(s, p, PieceText(piece));
    if !piece.Plain? {
      EscapeReads(s, p, piece);
      hide EscapeAt, UnitOf, At;
    }
  }

  lemma EscapeReads(s: Str, p: nat, piece: Piece)
    requires PieceOk(piece) && !piece.Plain? && At(s, p, PieceText(piece))
    ensures EscapeAt(s, p + 1) == Ok(([UnitOf(piece, false)], p + |PieceText(piece)|))
  {
    var text := PieceText(piece);
    assert s[p + 1] == s[p..p + |text|][1] == text[1];
    if piece.Hex? {
      assert s[p + 2..p + 6] == s[p..p + |text|][2..] == text[2..] == piece.digits;
      hide HexUnit;
    }
  }

  lemma {:induction false} PiecesRead(s: Str, p: nat, pieces: seq<Piece>, sofar: Str)
    requires PiecesOk(pieces) && At(s, p, PiecesText(pieces) + [QUOTE])
    ensures StringBody(s, p, sofar) == Ok((sofar + TextOf(pieces, false), p + |PiecesText(pieces)| + 1))
    decreases |pieces|
  {
    hide *;
    if pieces == [] {
      NothingReads(s, p, pieces, sofar);
    } else {
      var first, rest := pieces[0], pieces[1..];
      PiecesOnce(pieces);
      Regroup(PieceText(first), PiecesText(rest), [QUOTE]);
      AtSplit(s, p, PieceText(first), PiecesText(rest) + [QUOTE]);
      PieceReads(s, p, first, sofar);
      PiecesRead(s, p + |PieceText(first)|, rest, sofar + [UnitOf(first, false)]);
      Regroup(sofar, [UnitOf(first, false)], TextOf(rest, false));
    }
  }

  lemma PiecesOnce(pieces: seq<Piece>)
    requires pieces != [] && PiecesOk(pieces)
    ensures PiecesText(pieces) == PieceText(pieces[0]) + PiecesText(pieces[1..])
    ensures TextOf(pieces, false) == [UnitOf(pieces[0], false)] + TextOf(pieces[1..], false)
    ensures PieceOk(pieces[0]) && PiecesOk(pieces[1..])
  {
  }

  lemma NothingReads(s: Str, p: nat, pieces: seq<Piece>, sofar: Str)
    requires pieces == [] && At(s, p, PiecesText(pieces) + [QUOTE])
    ensures StringBody(s, p, sofar) == Ok((sofar + TextOf(pieces, false), p + |PiecesText(pieces)| + 1))
  {
    assert PiecesText(pieces) + [QUOTE] == [QUOTE] && sofar + TextOf(pieces, false) == sofar;
    AtFirst(s, p, [QUOTE]);
  }

  lemma QuotedReads(s: Str, p: nat, pieces: seq<Piece>)
    requires PiecesOk(pieces) && At(s, p, Quoted(pieces))
    ensures p < |s| && s[p] == QUOTE
    ensures StringAt(s, p) == Ok((TextOf(pieces, false), p + |Quoted(pieces)|))
  {
    hide PiecesText, StringBody, TextOf;
    AtSplit(s, p, [QUOTE], PiecesText(pieces) + [QUOTE]);
    AtFirst(s, p, [QUOTE]);
    PiecesRead(s, p + 1, pieces, []);
    assert [] + TextOf(pieces, false) == TextOf(pieces, false);
  }

  // ----- Numbers -----

  predicate EndsAt(s: Str, p: nat) {
    p <= |s| && (p < |s| ==> !IsNumberUnit(s[p]))
  }

  lemma {:induction false} NumberSpan(s: Str, p: nat, text: Str)
    requires At(s, p, text) && EndsAt(s, p + |text|)
    requires forall i | 0 <= i < |text| :: IsNumberUnit(text[i])
    ensures NumberEnd(s, p) == p + |text|
    decreases |text|
  {
    if text != [] {
      assert text == [text[0]] + text[1..];
      AtSplit(s, p, [text[0]], text[1..]);
      AtFirst(s, p, [text[0]]);
      NumberSpan(s, p + 1, text[1..]);
    }
  }

  /** A number text that no number character follows is read as a whole, or refused. */
  lemma NumberReads(s: Str, p: nat, text: Str)
    requires NumberTextOk(text) && At(s, p, text) && EndsAt(s, p + |text|)
    ensures ValueAt(s, p) == if NumberOf(text).Ok? then Ok((NumberOf(text).value, p + |text|))
        else Err(NumberOf(text).error)
  {
    AtFirst(s, p, text);
    NumberSpan(s, p, text);
    hide NumberOf, NumberEnd, At, EndsAt, IsNumberUnit, ValueAt;
    NumberChosen(s, p);
    NumberAtOnce(s, p, text);
  }

  lemma NumberAtOnce(s: Str, p: nat, text: Str)
    requires At(s, p, text) && NumberEnd(s, p) == p + |text|
    ensures p <= |s|
    ensures NumberAt(s, p) == if NumberOf(text).Ok? then Ok((NumberOf(text).value, p + |text|))
        else Err(NumberOf(text).error)
  {
    hide NumberEnd, NumberOf;
  }

  lemma NumberChosen(s: Str, p: nat)
    requires p < |s| && IsNumberUnit(s[p])
    ensures ValueAt(s, p) == NumberAt(s, p)
  {
    hide NumberAt, ObjectAt, ArrayAt, StringAt, BoolAt;
    assert SkipWhitespace(s, p) == p;
  }

  lemma NumberErrors(text: Str)
    ensures NumberOf(text).Err? ==> NumberOf(text).error == NumberFormat
  {
  }

  // ----- Values -----

  /** The reader's answer to a tree that ends at q: its value, unless a number does not fit. */
  function Answer(t: Tree, q: nat): Parsed<Json> {
    if NumbersFit(t) then Ok((ValueOfTree(t, false), q)) else Err(NumberFormat)
  }

  lemma WriteOnce(t: Tree)
    ensures Length(t) == match t
                         case TArray(items, _) => |items| + 1
                         case TObject(members, _) => |members| + 1
                         case _ => 0
    ensures t.TArray? ==> Write(t) == [OPEN_BRACKET] + (if t.items == [] then t.pad + [CLOSE_BRACKET]
        else WriteItems(t, 0))
    ensures t.TObject? ==> Write(t) == [OPEN_BRACE] + (if t.members == [] then t.pad + [CLOSE_BRACE]
        else WriteMembers(t, 0))
  {
  }

  /** A value begins with no white space and with no closing bracket. */
  predicate Begins(u: Unit) {
    !IsWhitespace(u) && u != CLOSE_BRACKET && u != CLOSE_BRACE
  }

  lemma HeadOf(t: Tree)
    requires Readable(t)
    ensures Write(t) != [] && Begins(Write(t)[0])
  {
    match t
    case TArray(_, _) => WriteOnce(t);
    case TObject(_, _) => WriteOnce(t);
    case _ =>
  }

  lemma {:induction false} SkipTwice(s: Str, p: nat)
    ensures SkipWhitespace(s, SkipWhitespace(s, p)) == SkipWhitespace(s, p)
    decreases if p <= |s| then |s| - p else 0
  {
    if p < |s| && IsWhitespace(s[p]) {
      SkipTwice(s, p + 1);
    }
  }

  lemma ValueSkips(s: Str, p: nat)
    ensures ValueAt(s, p) == ValueAt(s, SkipWhitespace(s, p))
  {
    SkipTwice(s, p);
    hide SkipWhitespace, ObjectAt, ArrayAt, StringAt, BoolAt, NumberAt;
  }

  lemma LeafReads(s: Str, p: nat, t: Tree)
    requires !t.TArray? && !t.TObject?
    requires Readable(t) && At(s, p, Write(t)) && (t.TNumber? ==> EndsAt(s, p + |Write(t)|))
    ensures ValueAt(s, p) == Answer(t, p + |Write(t)|)
  {
    match t {
      case TNull =>
        AtFirst(s, p, NULL_TEXT);
      case TBool(b) => BoolReads(s, p, b);
      case TNumber(text) =>
        NumberReads(s, p, text);
        NumberErrors(text);
      case TString(pieces) =>
        QuotedReads(s, p, pieces);
        hide StringAt, Quoted, TextOf;
        assert SkipWhitespace(s, p) == p;
    }
  }

  lemma BoolReads(s: Str, p: nat, b: bool)
    requires At(s, p, if b then TRUE_TEXT else FALSE_TEXT)
    ensures ValueAt(s, p) == Ok((JBool(b), p + |if b then TRUE_TEXT else FALSE_TEXT|))
  {
    var text := if b then TRUE_TEXT else FALSE_TEXT;
    assert s[p..][..|text|] == text;
    assert s[p] == s[p..p + |text|][0] == text[0];
    if !b {
      assert s[p..][0] == s[p];
    }
  }

  /** A value after white space, before more white space and then `next`. */
  lemma Surrounded(s: Str, p: nat, before: Str, text: Str, after: Str, next: Unit, rest: Str)
    requires At(s, p, before + (text + (after + ([next] + rest))))
    requires IsBlank(before) && IsBlank(after) && text != [] && Begins(text[0])
    requires next == COMMA || next == CLOSE_BRACKET || next == CLOSE_BRACE
    ensures var v := p + |before|; var q := v + |text|; var n := q + |after|;
            && At(s, v, text) && n < |s|
            && SkipWhitespace(s, p) == v && SkipWhitespace(s, q) == n && s[n] == next && s[v] == text[0]
            && EndsAt(s, q) && At(s, n + 1, rest)
  {
    hide *;
    var v := p + |before|;
    var q := v + |text|;
    AtSplit(s, p, before, text + (after + ([next] + rest)));
    AtSplit(s, v, text, after + ([next] + rest));
    AtSplit(s, q, after, [next] + rest);
    AtSplit(s, q + |after|, [next], rest);
    AtFirst(s, q + |after|, [next]);
    AtFirst(s, v, text);
    BeginsIs(text[0]);
    ClosersShow();
    BlankSkipped(s, p, before);
    BlankSkipped(s, q, after);
    NumberEnds(s, q, after);
  }

  lemma BeginsIs(u: Unit)
    requires Begins(u)
    ensures !IsWhitespace(u) && u != CLOSE_BRACKET && u != CLOSE_BRACE
  {
  }

  lemma ClosersShow()
    ensures !IsWhitespace(CLOSE_BRACKET) && !IsWhitespace(CLOSE_BRACE) && !IsWhitespace(QUOTE) && !IsWhitespace(COMMA)
    ensures !IsWhitespace(COLON) && QUOTE != CLOSE_BRACE && QUOTE != COMMA
    ensures CLOSE_BRACE != COMMA && CLOSE_BRACKET != COMMA
  {
  }

  /** Neither white space nor what comes after it continues a number. */
  lemma NumberEnds(s: Str, q: nat, after: Str)
    requires At(s, q, after) && IsBlank(after) && q + |after| < |s|
    requires s[q + |after|] == COMMA || s[q + |after|] == CLOSE_BRACKET || s[q + |after|] == CLOSE_BRACE
    ensures EndsAt(s, q)
  {
    if after != [] {
      AtFirst(s, q, after);
    }
  }

  // ----- Arrays -----

  lemma ItemsOnce(t: Tree, i: nat)
    requires t.TArray? && i < |t.items| && Readable(t)
    ensures var item := t.items[i];
            && WriteItems(t, i) == item.before + (Write(item.value) + (item.after
                 + if i + 1 == |t.items| then [CLOSE_BRACKET] else [COMMA] + WriteItems(t, i + 1)))
            && ItemsOf(t, i + 1, false) == ItemsOf(t, i, false) + [ValueOfTree(item.value, false)]
            && IsBlank(item.before) && IsBlank(item.after) && Readable(item.value)
  {
  }

  /** One turn of parseArr's loop. */
  lemma ItemTurn(s: Str, p: nat, v: nat, q: nat, n: nat, sofar: seq<Json>)
    requires p <= v <= q <= n <= |s| && p < |s|
    requires SkipWhitespace(s, p) == v && SkipWhitespace(s, q) == n
    ensures ValueAt(s, v).Err? ==> Items(s, p, sofar) == Err(ValueAt(s, v).error)
    ensures ValueAt(s, v).Ok? && ValueAt(s, v).value.1 == q ==>
              var items := sofar + [ValueAt(s, v).value.0];
              Items(s, p, sofar) == if n == |s| then Err(IndexOutOfBounds)
                                    else if s[n] == COMMA then Items(s, n + 1, items)
                                    else if s[n] == CLOSE_BRACKET then Ok((JArray(items), n + 1))
                                    else Items(s, n, items)
  {
    ValueSkips(s, p);
    hide ValueAt, SkipWhitespace;
  }

  predicate ItemsFit(t: Tree, i: nat)
    requires t.TArray? && i <= |t.items|
  {
    forall k | i <= k < |t.items| :: NumbersFit(t.items[k].value)
  }

  lemma {:induction false} ItemsRead(s: Str, p: nat, t: Tree, i: nat)
    requires t.TArray? && i < |t.items| && Readable(t) && At(s, p, WriteItems(t, i))
    ensures Items(s, p, ItemsOf(t, i, false))
         == if ItemsFit(t, i) then Ok((JArray(ItemsOf(t, |t.items|, false)), p + |WriteItems(t, i)|))
             else Err(NumberFormat)
    decreases t, |t.items| - i, 2
  {
    hide *;
    var item := t.items[i];
    var last := i + 1 == |t.items|;
    var rest: Str := if last then [] else WriteItems(t, i + 1);
    var next := if last then CLOSE_BRACKET else COMMA;
    var text := Write(item.value);
    ItemsOnce(t, i);
    assert last ==> [next] + rest == [CLOSE_BRACKET];
    HeadOf(item.value);
    ClosersShow();
    Surrounded(s, p, item.before, text, item.after, next, rest);
    var v := p + |item.before|;
    var q := v + |text|;
    TreeReads(s, v, item.value);
    ItemTurn(s, p, v, q, q + |item.after|, ItemsOf(t, i, false));
    ItemsFitOnce(t, i);
    AnswerIs(item.value, q);
    if !last {
      ItemsRead(s, q + |item.after| + 1, t, i + 1);
    }
  }

  lemma ItemsFitOnce(t: Tree, i: nat)
    requires t.TArray? && i < |t.items|
    ensures ItemsFit(t, i) <==> NumbersFit(t.items[i].value) && (i + 1 < |t.items| ==> ItemsFit(t, i + 1))
  {
    hide NumbersFit;
  }

  lemma AnswerIs(t: Tree, q: nat)
    ensures Answer(t, q) == if NumbersFit(t) then Ok((ValueOfTree(t, false), q)) else Err(NumberFormat)
  {
    hide NumbersFit, ValueOfTree;
  }

  lemma ArrayOpens(s: Str, p: nat, v: nat)
    requires p < |s| && s[p] == OPEN_BRACKET && p < v < |s| && SkipWhitespace(s, p + 1) == v
    ensures s[v] == CLOSE_BRACKET ==> ValueAt(s, p) == Ok((JArray([]), v + 1))
    ensures s[v] != CLOSE_BRACKET ==> ValueAt(s, p) == Items(s, p + 1, [])
  {
    hide SkipWhitespace, ValueAt, Items;
    ArrayChosen(s, p);
    ItemsSkip(s, p + 1, []);
  }

  lemma ItemsSkip(s: Str, p: nat, sofar: seq<Json>)
    requires p < |s| && SkipWhitespace(s, p) < |s|
    ensures Items(s, p, sofar) == Items(s, SkipWhitespace(s, p), sofar)
  {
    ValueSkips(s, p);
    hide SkipWhitespace, ValueAt;
  }

  lemma ArrayChosen(s: Str, p: nat)
    requires p < |s| && s[p] == OPEN_BRACKET
    ensures ValueAt(s, p) == ArrayAt(s, p)
  {
    assert SkipWhitespace(s, p) == p;
    hide ArrayAt, ObjectAt, StringAt, BoolAt, NumberAt;
  }

  // ----- Objects -----

  lemma MembersOnce(t: Tree, i: nat)
    requires t.TObject? && i < |t.members| && Readable(t)
    ensures var m := t.members[i];
            && WriteMembers(t, i) == m.before + (Quoted(m.name)
                + (m.beforeColon + ([COLON] + (m.afterColon + (Write(m.value) + (m.after
                 + if i + 1 == |t.members| then [CLOSE_BRACE] else [COMMA] + WriteMembers(t, i + 1)))))))
            && MembersOf(t, i + 1, false) == MembersOf(t, i, false)[TextOf(m.name, false) :=
                ValueOfTree(m.value, false)]
            && IsBlank(m.before) && IsBlank(m.beforeColon) && IsBlank(m.afterColon) && IsBlank(m.after)
            && PiecesOk(m.name) && Readable(m.value)
  {
  }

  /** A member's name and colon; the reader takes any character for the colon. */
  lemma NameReads(s: Str, p: nat, before: Str, name: seq<Piece>, beforeColon: Str, colon: Unit, rest: Str)
    requires At(s, p, before + (Quoted(name) + (beforeColon + ([colon] + rest))))
    requires IsBlank(before) && IsBlank(beforeColon) && PiecesOk(name) && !IsWhitespace(colon)
    ensures var k := p + |before|; var e := k + |Quoted(name)|; var c := e + |beforeColon|;
            && c < |s| && k < |s| && s[k] == QUOTE && At(s, c + 1, rest)
            && SkipWhitespace(s, p) == k && StringAt(s, k) == Ok((TextOf(name, false), e))
            && SkipWhitespace(s, e) == c
  {
    hide *;
    ClosersShow();
    var k := p + |before|;
    var e := k + |Quoted(name)|;
    AtSplit(s, p, before, Quoted(name) + (beforeColon + ([colon] + rest)));
    AtSplit(s, k, Quoted(name), beforeColon + ([colon] + rest));
    AtSplit(s, e, beforeColon, [colon] + rest);
    AtSplit(s, e + |beforeColon|, [colon], rest);
    AtFirst(s, e + |beforeColon|, [colon]);
    QuotedReads(s, k, name);
    BlankSkipped(s, p, before);
    BlankSkipped(s, e, beforeColon);
  }

  /** One turn of parseObj's loop. */
  lemma MemberTurn(s: Str, p: nat, k: nat, e: nat, c: nat, v: nat, q: nat, n: nat, key: Str, sofar: map<Str, Json>)
    requires p <= k < e <= c < v <= q <= n <= |s| && v < |s|
    requires SkipWhitespace(s, p) == k && StringAt(s, k) == Ok((key, e)) && SkipWhitespace(s, e) == c
    requires SkipWhitespace(s, c + 1) == v && SkipWhitespace(s, q) == n
    ensures ValueAt(s, v).Err? ==> Fields(s, p, sofar) == Err(ValueAt(s, v).error)
    ensures ValueAt(s, v).Ok? && ValueAt(s, v).value.1 == q ==>
              var fields := sofar[key := ValueAt(s, v).value.0];
              Fields(s, p, sofar) == if n == |s| then Err(IndexOutOfBounds)
                                     else if s[n] == COMMA then Fields(s, n + 1, fields)
                                     else if s[n] == CLOSE_BRACE then Ok((JObject(fields), n + 1))
                                     else Fields(s, n, fields)
  {
    hide ValueAt, SkipWhitespace, StringAt, Fields;
    ValueSkips(s, c + 1);
    FieldsOnce(s, p, sofar);
  }

  predicate MembersFit(t: Tree, i: nat)
    requires t.TObject? && i <= |t.members|
  {
    forall k | i <= k < |t.members| :: NumbersFit(t.members[k].value)
  }

  lemma MembersFitOnce(t: Tree, i: nat)
    requires t.TObject? && i < |t.members|
    ensures MembersFit(t, i) <==> NumbersFit(t.members[i].value) && (i + 1 < |t.members| ==> MembersFit(t, i + 1))
  {
    hide NumbersFit;
  }

  lemma {:induction false} MembersRead(s: Str, p: nat, t: Tree, i: nat)
    requires t.TObject? && i < |t.members| && Readable(t) && At(s, p, WriteMembers(t, i))
    ensures Fields(s, p, MembersOf(t, i, false))
         == if MembersFit(t, i) then Ok((JObject(MembersOf(t, |t.members|, false)), p + |WriteMembers(t, i)|))
             else Err(NumberFormat)
    decreases t, |t.members| - i, 2
  {
    hide *;
    var m := t.members[i];
    var last := i + 1 == |t.members|;
    var rest: Str := if last then [] else WriteMembers(t, i + 1);
    var next := if last then CLOSE_BRACE else COMMA;
    var text := Write(m.value);
    MembersOnce(t, i);
    assert last ==> [next] + rest == [CLOSE_BRACE];
    HeadOf(m.value);
    var tail := m.afterColon + (text + (m.after + ([next] + rest)));
    ClosersShow();
    NameReads(s, p, m.before, m.name, m.beforeColon, COLON, tail);
    var k := p + |m.before|;
    var e := k + |Quoted(m.name)|;
    var c := e + |m.beforeColon|;
    Surrounded(s, c + 1, m.afterColon, text, m.after, next, rest);
    var v := c + 1 + |m.afterColon|;
    var q := v + |text|;
    TreeReads(s, v, m.value);
    QuotedLength(m.name);
    MemberTurn(s, p, k, e, c, v, q, q + |m.after|, TextOf(m.name, false), MembersOf(t, i, false));
    MembersFitOnce(t, i);
    AnswerIs(m.value, q);
    if !last {
      MembersRead(s, q + |m.after| + 1, t, i + 1);
    }
  }

  lemma QuotedLength(name: seq<Piece>)
    ensures |Quoted(name)| >= 2 && Quoted(name)[0] == QUOTE
  {
  }

  lemma ObjectOpens(s: Str, p: nat, v: nat)
    requires p < |s| && s[p] == OPEN_BRACE && p < v < |s| && SkipWhitespace(s, p + 1) == v
    ensures s[v] == CLOSE_BRACE ==> ValueAt(s, p) == Ok((JObject(map[]), v + 1))
    ensures s[v] != CLOSE_BRACE ==> ValueAt(s, p) == Fields(s, p + 1, map[])
  {
    hide SkipWhitespace, ValueAt, Fields;
    ObjectChosen(s, p);
    FieldsSkip(s, p + 1, map[]);
  }

  lemma FieldsSkip(s: Str, p: nat, sofar: map<Str, Json>)
    requires p < |s| && SkipWhitespace(s, p) < |s|
    ensures Fields(s, p, sofar) == Fields(s, SkipWhitespace(s, p), sofar)
  {
    SkipTwice(s, p);
    hide SkipWhitespace, ValueAt, StringAt;
  }

  lemma ObjectChosen(s: Str, p: nat)
    requires p < |s| && s[p] == OPEN_BRACE
    ensures ValueAt(s, p) == ObjectAt(s, p)
  {
    assert SkipWhitespace(s, p) == p;
    hide ArrayAt, ObjectAt, StringAt, BoolAt, NumberAt;
  }

  // ----- Every text -----

  lemma ContainerOnce(t: Tree)
    requires Readable(t)
    ensures t.TArray? ==>
      && IsBlank(t.pad) && (NumbersFit(t) <==> ItemsFit(t, 0))
      && ValueOfTree(t, false) == JArray(ItemsOf(t, |t.items|, false)) && ItemsOf(t, 0, false) == []
    ensures t.TObject? ==>
      && IsBlank(t.pad) && (NumbersFit(t) <==> MembersFit(t, 0))
      && ValueOfTree(t, false) == JObject(MembersOf(t, |t.members|, false)) && MembersOf(t, 0, false) == map[]
  {
  }

  /** Empty brackets with white space in them. */
  lemma EmptyInside(s: Str, p: nat, pad: Str, closing: Unit)
    requires At(s, p, pad + [closing]) && IsBlank(pad) && !IsWhitespace(closing)
    ensures p + |pad| < |s| && SkipWhitespace(s, p) == p + |pad| && s[p + |pad|] == closing
  {
    AtSplit(s, p, pad, [closing]);
    AtFirst(s, p + |pad|, [closing]);
    BlankSkipped(s, p, pad);
  }

  /** The first member or item, after white space. */
  lemma FirstInside(s: Str, p: nat, before: Str, text: Str, rest: Str)
    requires At(s, p, before + (text + rest)) && IsBlank(before) && text != [] && !IsWhitespace(text[0])
    ensures p + |before| < |s| && SkipWhitespace(s, p) == p + |before| && s[p + |before|] == text[0]
  {
    AtSplit(s, p, before, text + rest);
    AtSplit(s, p + |before|, text, rest);
    AtFirst(s, p + |before|, text);
    BlankSkipped(s, p, before);
  }

  lemma ArrayStarts(s: Str, p: nat, t: Tree)
    requires t.TArray? && t.items != [] && Readable(t)
    requires At(s, p, [OPEN_BRACKET]) && At(s, p + 1, WriteItems(t, 0))
    ensures ValueAt(s, p) == Items(s, p + 1, [])
  {
    hide *;
    var item := t.items[0];
    ItemsOnce(t, 0);
    HeadOf(item.value);
    AtFirst(s, p, [OPEN_BRACKET]);
    FirstInside(s, p + 1, item.before, Write(item.value), item.after
      + if 1 == |t.items| then [CLOSE_BRACKET] else [COMMA] + WriteItems(t, 1));
    BeginsIs(Write(item.value)[0]);
    ArrayOpens(s, p, p + 1 + |item.before|);
  }

  lemma ObjectStarts(s: Str, p: nat, t: Tree)
    requires t.TObject? && t.members != [] && Readable(t)
    requires At(s, p, [OPEN_BRACE]) && At(s, p + 1, WriteMembers(t, 0))
    ensures ValueAt(s, p) == Fields(s, p + 1, map[])
  {
    hide *;
    var m := t.members[0];
    MembersOnce(t, 0);
    QuotedLength(m.name);
    ClosersShow();
    AtFirst(s, p, [OPEN_BRACE]);
    FirstInside(s, p + 1, m.before, Quoted(m.name), m.beforeColon
        + ([COLON] + (m.afterColon + (Write(m.value) + (m.after
      + if 1 == |t.members| then [CLOSE_BRACE] else [COMMA] + WriteMembers(t, 1))))));
    ObjectOpens(s, p, p + 1 + |m.before|);
  }

  lemma {:induction false} ArrayReads(s: Str, p: nat, t: Tree)
    requires t.TArray? && Readable(t) && At(s, p, Write(t))
    ensures ValueAt(s, p) == Answer(t, p + |Write(t)|)
    decreases t, Length(t), 0
  {
    hide *;
    WriteOnce(t);
    AnswerIs(t, p + |Write(t)|);
    ContainerOnce(t);
    if t.items == [] {
      AtSplit(s, p, [OPEN_BRACKET], t.pad + [CLOSE_BRACKET]);
      AtFirst(s, p, [OPEN_BRACKET]);
      ClosersShow();
      EmptyInside(s, p + 1, t.pad, CLOSE_BRACKET);
      ArrayOpens(s, p, p + 1 + |t.pad|);
      NothingToFit(t);
    } else {
      AtSplit(s, p, [OPEN_BRACKET], WriteItems(t, 0));
      ArrayStarts(s, p, t);
      ItemsRead(s, p + 1, t, 0);
    }
  }

  lemma {:induction false} ObjectReads(s: Str, p: nat, t: Tree)
    requires t.TObject? && Readable(t) && At(s, p, Write(t))
    ensures ValueAt(s, p) == Answer(t, p + |Write(t)|)
    decreases t, Length(t), 0
  {
    hide *;
    WriteOnce(t);
    AnswerIs(t, p + |Write(t)|);
    ContainerOnce(t);
    if t.members == [] {
      AtSplit(s, p, [OPEN_BRACE], t.pad + [CLOSE_BRACE]);
      AtFirst(s, p, [OPEN_BRACE]);
      ClosersShow();
      EmptyInside(s, p + 1, t.pad, CLOSE_BRACE);
      ObjectOpens(s, p, p + 1 + |t.pad|);
      NothingToFit(t);
    } else {
      AtSplit(s, p, [OPEN_BRACE], WriteMembers(t, 0));
      ObjectStarts(s, p, t);
      MembersRead(s, p + 1, t, 0);
    }
  }

  /** Every text the grammar can spell, at any position: the reader gives its value and stops right
      behind it, or refuses a number that does not fit. A number must not be followed by more
      number characters. */
  lemma {:induction false} TreeReads(s: Str, p: nat, t: Tree)
    requires Readable(t) && At(s, p, Write(t)) && (t.TNumber? ==> EndsAt(s, p + |Write(t)|))
    ensures ValueAt(s, p) == Answer(t, p + |Write(t)|)
    decreases t, Length(t), 1
  {
    match t
    case TArray(_, _) => ArrayReads(s, p, t);
    case TObject(_, _) => ObjectReads(s, p, t);
    case _ => LeafReads(s, p, t);
  }

  lemma NothingToFit(t: Tree)
    requires (t.TArray? && t.items == []) || (t.TObject? && t.members == [])
    ensures NumbersFit(t)
  {
  }
}
