// What the reader makes of texts that are no JSON: it takes any character for a colon, does without
// commas, and does not mind where the text ends as long as that is in a string or behind a comma.
module JsonLoose {
  import opened Wrappers
  import opened JsonText
  import opened JsonParser
  import opened JsonGrammar

  // ----- Strings -----

  lemma {:induction false} PiecesPass(s: Str, p: nat, pieces: seq<Piece>, sofar: Str)
    requires PiecesOk(pieces) && At(s, p, PiecesText(pieces))
    ensures StringBody(s, p, sofar) == StringBody(s, p + |PiecesText(pieces)|, sofar + TextOf(pieces, false))
    decreases |pieces|
  {
    hide *;
    NoPieces();
    if pieces == [] {
      assert sofar + [] == sofar;
    } else {
      var first, rest := pieces[0], pieces[1..];
      PiecesOnce(pieces);
      AtSplit(s, p, PieceText(first), PiecesText(rest));
      PieceReads(s, p, first, sofar);
      PiecesPass(s, p + |PieceText(first)|, rest, sofar + [UnitOf(first, false)]);
      Regroup(sofar, [UnitOf(first, false)], TextOf(rest, false));
    }
  }

  lemma NoPieces()
    ensures PiecesText([]) == [] && TextOf([], false) == []
  {
  }

  /** A string may end with the text. */
  lemma UnclosedStringReads(pieces: seq<Piece>)
    requires PiecesOk(pieces)
    ensures StringAt([QUOTE] + PiecesText(pieces), 0) == Ok((TextOf(pieces, false), 1 + |PiecesText(pieces)|))
  {
    var s := [QUOTE] + PiecesText(pieces);
    hide PiecesText, TextOf, PiecesOk;
    assert s[1..1 + |PiecesText(pieces)|] == PiecesText(pieces);
    PiecesPass(s, 1, pieces, []);
    assert [] + TextOf(pieces, false) == TextOf(pieces, false);
  }

  /** But not within an escape; and four characters that are no number are refused as one. */
  lemma BrokenEscapeRefused(pieces: seq<Piece>, x: Str)
    requires PiecesOk(pieces)
    ensures StringAt([QUOTE] + (PiecesText(pieces) + [BACKSLASH]), 0) == Err(IndexOutOfBounds)
    ensures var r := StringAt([QUOTE] + (PiecesText(pieces) + ([BACKSLASH, LOWER_U] + x)), 0);
      && (|x| < 4 ==> r == Err(IndexOutOfBounds))
      && (|x| >= 4 && HexUnit(x[..4]).None? ==> r == Err(NumberFormat))
  {
    EscapeStarts(pieces, [BACKSLASH]);
    EscapeStarts(pieces, [BACKSLASH, LOWER_U] + x);
    var s := [QUOTE] + (PiecesText(pieces) + ([BACKSLASH, LOWER_U] + x));
    var p := 1 + |PiecesText(pieces)|;
    hide PiecesText, TextOf, PiecesOk, HexUnit;
    if |x| >= 4 {
      assert s[p + 2..p + 6] == x[..4];
    }
  }

  lemma EscapeStarts(pieces: seq<Piece>, tail: Str)
    requires PiecesOk(pieces) && tail != [] && tail[0] == BACKSLASH
    ensures var s := [QUOTE] + (PiecesText(pieces) + tail); var p := 1 + |PiecesText(pieces)|;
            StringAt(s, 0) == match EscapeAt(s, p + 1)
                              case Err(e) => Err(e)
                              case Ok((units, q)) => StringBody(s, q, TextOf(pieces, false) + units)
  {
    var s := [QUOTE] + (PiecesText(pieces) + tail);
    hide PiecesText, TextOf, PiecesOk, EscapeAt;
    assert s[1..1 + |PiecesText(pieces)|] == PiecesText(pieces);
    PiecesPass(s, 1, pieces, []);
    assert s[1 + |PiecesText(pieces)|] == BACKSLASH;
    assert [] + TextOf(pieces, false) == TextOf(pieces, false);
  }

  // ----- Words -----

  /** Whatever begins with n is taken for null, four characters of it. */
  lemma AnyWordWithN(t: Str)
    ensures ValueAt([LOWER_N] + t, 0) == Ok((JNull, 4))
  {
    assert SkipWhitespace([LOWER_N] + t, 0) == 0;
  }

  // ----- Between members and items -----

  function Comma(comma: bool): Str {
    if comma then [COMMA] else []
  }

  lemma {:induction false} BlankToEnd(s: Str, p: nat, pad: Str)
    requires At(s, p, pad) && IsBlank(pad) && p + |pad| == |s|
    ensures SkipWhitespace(s, p) == |s|
    decreases |pad|
  {
    if pad != [] {
      assert pad == [pad[0]] + pad[1..];
      AtSplit(s, p, [pad[0]], pad[1..]);
      AtFirst(s, p, [pad[0]]);
      BlankToEnd(s, p + 1, pad[1..]);
    }
  }

  lemma NoNumberGoesOn(s: Str, q: nat, pad: Str)
    requires At(s, q, pad) && IsBlank(pad)
    requires q + |pad| < |s| && pad == [] ==> !IsNumberUnit(s[q])
    ensures EndsAt(s, q)
  {
    if pad != [] {
      AtFirst(s, q, pad);
    }
  }

  /** What follows a value: white space, a comma perhaps, then the end of the text or something that
      begins with u after more white space. */
  lemma Behind(s: Str, q: nat, after: Str, comma: bool, pad: Str, more: Str)
    requires IsBlank(after) && IsBlank(pad) && At(s, q, after + (Comma(comma) + (pad + more)))
    requires !comma && more == [] ==> pad == [] && q + |after| == |s|
    requires !comma && more != [] ==> !IsWhitespace(more[0])
    ensures var m := q + |after|;
            m <= |s| && SkipWhitespace(s, q) ==
              if comma then m else if more == [] then |s| else m + |pad|
    ensures comma ==> q + |after| < |s| && s[q + |after|] == COMMA && At(s, q + |after| + 1, pad + more)
    ensures !comma ==> At(s, q + |after|, pad + more)
    ensures !comma && more != [] ==>
      var n := q + |after| + |pad|;
      n < |s| && s[n] == more[0] && SkipWhitespace(s, q + |after|) == n
    ensures comma || more == [] || after != [] || pad != [] || !IsNumberUnit(more[0]) ==> EndsAt(s, q)
  {
    hide *;
    var m := q + |after|;
    CommaIs(comma);
    AtSplit(s, q, after, Comma(comma) + (pad + more));
    AtSplit(s, m, Comma(comma), pad + more);
    ClosersShow();
    CommaIsNoNumber();
    if comma {
      AtFirst(s, m, [COMMA]);
      BlankSkipped(s, q, after);
      NoNumberGoesOn(s, q, after);
    } else if more == [] {
      BlankToEnd(s, q, after);
      NoNumberGoesOn(s, q, after);
    } else {
      AtSplit(s, m, pad, more);
      AtFirst(s, m + |pad|, more);
      BlankSkipped(s, m, pad);
      AtJoin(s, q, after, pad);
      BlankJoin(after, pad);
      BlankSkipped(s, q, after + pad);
      if after != [] || pad != [] || !IsNumberUnit(more[0]) {
        NoNumberGoesOn(s, q, after + pad);
      }
    }
  }

  lemma CommaIs(comma: bool)
    ensures Comma(comma) == if comma then [COMMA] else []
  {
  }

  lemma CommaIsNoNumber()
    ensures !IsNumberUnit(COMMA)
  {
  }

  lemma AtJoin(s: Str, p: nat, a: Str, b: Str)
    requires At(s, p, a) && At(s, p + |a|, b)
    ensures At(s, p, a + b)
  {
    assert s[p..p + |a + b|] == s[p..p + |a|] + s[p + |a|..p + |a| + |b|];
  }

  lemma BlankJoin(a: Str, b: Str)
    requires IsBlank(a) && IsBlank(b)
    ensures IsBlank(a + b)
  {
    hide IsWhitespace;
  }

  /** A value begins with no comma, and like a number only if it is one. */
  lemma HeadShows(t: Tree)
    requires Readable(t)
    ensures Write(t) != [] && Write(t)[0] != COMMA && Begins(Write(t)[0])
    ensures IsNumberUnit(Write(t)[0]) ==> t.TNumber?
  {
    HeadOf(t);
    match t
    case TArray(_, _) => WriteOnce(t);
    case TObject(_, _) => WriteOnce(t);
    case _ =>
  }

  /** No number goes on over a quote or a closing bracket. */
  lemma NoneGoesOn()
    ensures !IsNumberUnit(QUOTE) && !IsNumberUnit(CLOSE_BRACE) && !IsNumberUnit(CLOSE_BRACKET)
  {
  }

  // ----- Objects -----

  /** What stands for a member's colon, and whether a comma follows the member. */
  datatype Mark = Mark(colon: Unit, comma: bool)

  function LooseMember(m: Member, mark: Mark, more: Str): Str {
    m.before + (Quoted(m.name) + (m.beforeColon + ([mark.colon] + (m.afterColon + (Write(m.value)
        + (m.after + (Comma(mark.comma) + more)))))))
  }

  /** Member i and all that follows it, up to the ending. */
  function LooseMembers(t: Tree, marks: seq<Mark>, i: nat, ending: Str): Str
    requires t.TObject? && |marks| == |t.members| && i <= |t.members|
    decreases |t.members| - i
  {
    if i == |t.members| then ending else LooseMember(t.members[i], marks[i], LooseMembers(t, marks, i + 1, ending))
  }

  /** The text goes on to its end or to a closing brace. */
  predicate Ends(t: Tree, marks: seq<Mark>, ending: Str)
    requires t.TObject? && |marks| == |t.members|
  {
    && t.members != [] && Readable(t)
    && (forall i | 0 <= i < |marks| :: !IsWhitespace(marks[i].colon))
    && (ending == [] || ending == [CLOSE_BRACE])
  }

  lemma EndsOnce(t: Tree, marks: seq<Mark>, i: nat, ending: Str)
    requires t.TObject? && |marks| == |t.members| && i < |t.members| && Ends(t, marks, ending)
    ensures !IsWhitespace(marks[i].colon) && Readable(t)
    ensures ending == [] || ending == [CLOSE_BRACE]
  {
    hide Readable;
  }

  lemma EndsSome(t: Tree, marks: seq<Mark>, ending: Str)
    requires t.TObject? && |marks| == |t.members| && Ends(t, marks, ending)
    ensures t.members != []
  {
  }

  lemma LooseMemberOnce(m: Member, mark: Mark, more: Str)
    ensures LooseMember(m, mark, more)
         == m.before + (Quoted(m.name) + (m.beforeColon + ([mark.colon] + (m.afterColon + (Write(m.value)
                + (m.after + (Comma(mark.comma) + more)))))))
    ensures |LooseMember(m, mark, more)|
         == |m.before| + |Quoted(m.name)| + |m.beforeColon| + 1 + |m.afterColon| + |Write(m.value)| + |m.after|
            + |Comma(mark.comma)| + |more|
  {
    hide Quoted, Write, Comma;
  }

  lemma LooseMembersOnce(t: Tree, marks: seq<Mark>, i: nat, ending: Str)
    requires t.TObject? && |marks| == |t.members| && i <= |t.members|
    ensures LooseMembers(t, marks, i, ending) ==
            if i == |t.members| then ending
            else LooseMember(t.members[i], marks[i], LooseMembers(t, marks, i + 1, ending))
  {
    hide LooseMember;
  }

  /** What follows a member: white space, then the next name, the ending, or nothing. */
  lemma NextShows(t: Tree, marks: seq<Mark>, i: nat, ending: Str) returns (pad: Str, more: Str)
    requires t.TObject? && |marks| == |t.members| && i < |t.members| && Readable(t)
    ensures LooseMembers(t, marks, i + 1, ending) == pad + more && IsBlank(pad)
    ensures i + 1 == |t.members| ==> pad == [] && more == ending
    ensures i + 1 < |t.members| ==> more != [] && more[0] == QUOTE
  {
    hide *;
    LooseMembersOnce(t, marks, i + 1, ending);
    if i + 1 == |t.members| {
      pad, more := [], ending;
      BlankNothing();
    } else {
      var m, mark := t.members[i + 1], marks[i + 1];
      MembersOnce(t, i + 1);
      QuotedLength(m.name);
      LooseMemberOnce(m, mark, LooseMembers(t, marks, i + 2, ending));
      pad, more := m.before, Quoted(m.name) + (m.beforeColon + ([mark.colon] + (m.afterColon + (Write(m.value)
          + (m.after + (Comma(mark.comma) + LooseMembers(t, marks, i + 2, ending)))))));
    }
  }

  lemma BlankNothing()
    ensures IsBlank([])
  {
  }

  predicate Proper(m: Member, mark: Mark) {
    && IsBlank(m.before) && IsBlank(m.beforeColon) && IsBlank(m.afterColon) && IsBlank(m.after)
    && PiecesOk(m.name) && Readable(m.value) && !IsWhitespace(mark.colon)
  }

  lemma ProperMeans(m: Member, mark: Mark)
    ensures Proper(m, mark) <==>
      && IsBlank(m.before) && IsBlank(m.beforeColon) && IsBlank(m.afterColon) && IsBlank(m.after)
      && PiecesOk(m.name) && Readable(m.value) && !IsWhitespace(mark.colon)
  {
    hide IsBlank, PiecesOk, Readable, IsWhitespace;
  }

  /** Where the colon, the value and what follows it begin. */
  function ColonOf(p: nat, m: Member): nat {
    p + |m.before| + |Quoted(m.name)| + |m.beforeColon|
  }

  function ValueOf(p: nat, m: Member): nat {
    ColonOf(p, m) + 1 + |m.afterColon|
  }

  function TailOf(p: nat, m: Member): nat {
    ValueOf(p, m) + |Write(m.value)|
  }

  lemma Places(p: nat, m: Member, mark: Mark)
    ensures ColonOf(p, m) == p + |m.before| + |Quoted(m.name)| + |m.beforeColon|
    ensures ValueOf(p, m) == ColonOf(p, m) + 1 + |m.afterColon| && TailOf(p, m) == ValueOf(p, m) + |Write(m.value)|
    ensures p + |LooseMember(m, mark, [])| == TailOf(p, m) + |m.after| + |Comma(mark.comma)|
  {
    LooseMemberOnce(m, mark, []);
    hide LooseMember, Quoted, Write, Comma;
  }

  /** The reader finds the name, the colon and the value. */
  lemma MemberOpens(s: Str, p: nat, m: Member, mark: Mark, more: Str)
    requires Proper(m, mark) && At(s, p, LooseMember(m, mark, more))
    ensures var k := p + |m.before|; var e := k + |Quoted(m.name)|; var c := ColonOf(p, m); var v := ValueOf(p, m);
      && SkipWhitespace(s, p) == k && StringAt(s, k) == Ok((TextOf(m.name, false), e))
      && SkipWhitespace(s, e) == c && SkipWhitespace(s, c + 1) == v && v < |s|
      && At(s, v, Write(m.value)) && At(s, TailOf(p, m), m.after + (Comma(mark.comma) + more))
  {
    hide *;
    LooseMemberOnce(m, mark, more);
    Places(p, m, mark);
    ProperMeans(m, mark);
    var text := Write(m.value);
    var tail := m.after + (Comma(mark.comma) + more);
    NameReads(s, p, m.before, m.name, m.beforeColon, mark.colon, m.afterColon + (text + tail));
    HeadShows(m.value);
    BeginsIs(text[0]);
    var c := ColonOf(p, m);
    FirstInside(s, c + 1, m.afterColon, text, tail);
    AtSplit(s, c + 1, m.afterColon, text + tail);
    AtSplit(s, ValueOf(p, m), text, tail);
  }

  /** What may follow a member: nothing, a name, or the brace. */
  predicate MayFollow(more: Str) {
    more == [] || more[0] == QUOTE || more[0] == CLOSE_BRACE
  }

  lemma MayFollowMeans(more: Str)
    ensures MayFollow(more) <==> more == [] || more[0] == QUOTE || more[0] == CLOSE_BRACE
    ensures MayFollow(more) && more != [] ==> !IsWhitespace(more[0]) && !IsNumberUnit(more[0]) && more[0] != COMMA
    ensures CLOSE_BRACE != COMMA
  {
  }

  /** One turn of parseObj's loop, over a member as loose as that. */
  lemma LooseTurn(s: Str, p: nat, m: Member, mark: Mark, pad: Str, more: Str, sofar: map<Str, Json>)
    requires Proper(m, mark) && IsBlank(pad) && At(s, p, LooseMember(m, mark, pad + more)) && MayFollow(more)
    requires more == [] ==> pad == [] && p + |LooseMember(m, mark, [])| == |s|
    ensures !NumbersFit(m.value) ==> Fields(s, p, sofar) == Err(NumberFormat)
    ensures NumbersFit(m.value) ==>
              var fields := sofar[TextOf(m.name, false) := ValueOfTree(m.value, false)];
              var next := p + |LooseMember(m, mark, [])|;
              Fields(s, p, sofar) == if mark.comma then Fields(s, next, fields)
                                     else if more == [] then Err(IndexOutOfBounds)
                                     else if more[0] == CLOSE_BRACE then Ok((JObject(fields), next + |pad| + 1))
                                     else Fields(s, next, fields)
  {
    hide *;
    MemberOpens(s, p, m, mark, pad + more);
    ProperMeans(m, mark);
    Places(p, m, mark);
    QuotedLength(m.name);
    MayFollowMeans(more);
    CommaIs(mark.comma);
    var k, c, v, q := p + |m.before|, ColonOf(p, m), ValueOf(p, m), TailOf(p, m);
    Behind(s, q, m.after, mark.comma, pad, more);
    TreeReads(s, v, m.value);
    AnswerIs(m.value, q);
    MemberTurn(s, p, k, k + |Quoted(m.name)|, c, v, q, SkipWhitespace(s, q), TextOf(m.name, false), sofar);
    if !mark.comma && more != [] {
      FieldsSkip(s, q + |m.after|, sofar[TextOf(m.name, false) := ValueOfTree(m.value, false)]);
    }
  }

  /** The reader's answer from member i on. */
  function LooseAnswer(t: Tree, marks: seq<Mark>, i: nat, ending: Str, end: nat): Parsed<Json>
    requires t.TObject? && |marks| == |t.members| && t.members != [] && i <= |t.members|
  {
    if !MembersFit(t, i) then Err(NumberFormat)
    else if ending == [] <==> marks[|marks| - 1].comma then Ok((JObject(MembersOf(t, |t.members|, false)), end))
    else Err(IndexOutOfBounds)
  }

  lemma LooseAnswerIs(t: Tree, marks: seq<Mark>, i: nat, ending: Str, end: nat)
    requires t.TObject? && |marks| == |t.members| && t.members != [] && i <= |t.members|
    ensures LooseAnswer(t, marks, i, ending, end) ==
            if !MembersFit(t, i) then Err(NumberFormat)
            else if ending == [] <==> marks[|marks| - 1].comma then Ok((JObject(MembersOf(t, |t.members|, false)), end))
            else Err(IndexOutOfBounds)
  {
    hide MembersFit, MembersOf;
  }

  /** What the turns over the members need of the whole. */
  lemma MemberProper(t: Tree, marks: seq<Mark>, i: nat, ending: Str)
    requires t.TObject? && |marks| == |t.members| && i < |t.members| && Ends(t, marks, ending)
    ensures var m := t.members[i];
      && Proper(m, marks[i]) && Readable(t)
      && MembersOf(t, i + 1, false) == MembersOf(t, i, false)[TextOf(m.name, false) := ValueOfTree(m.value, false)]
    ensures MayFollow(ending) && (ending != [] ==> ending[0] == CLOSE_BRACE && |ending| == 1)
  {
    hide *;
    EndsOnce(t, marks, i, ending);
    MembersOnce(t, i);
    ProperMeans(t.members[i], marks[i]);
    MayFollowMeans(ending);
  }

  lemma LooseMemberSplit(m: Member, mark: Mark, rest: Str)
    ensures LooseMember(m, mark, rest) == LooseMember(m, mark, []) + rest
  {
    LooseMemberOnce(m, mark, rest);
    LooseMemberOnce(m, mark, []);
    hide LooseMember, Quoted, Write, Comma;
  }

  /** From one member to the next. */
  lemma LooseGoesOn(s: Str, p: nat, t: Tree, marks: seq<Mark>, i: nat, ending: Str)
    requires t.TObject? && |marks| == |t.members| && i + 1 < |t.members| && Ends(t, marks, ending)
    requires At(s, p, LooseMembers(t, marks, i, ending))
    ensures var value, next := t.members[i].value, p + |LooseMember(t.members[i], marks[i], [])|;
            var r := Fields(s, p, MembersOf(t, i, false));
      && At(s, next, LooseMembers(t, marks, i + 1, ending))
      && next + |LooseMembers(t, marks, i + 1, ending)| == p + |LooseMembers(t, marks, i, ending)|
      && r == if NumbersFit(value) then Fields(s, next, MembersOf(t, i + 1, false)) else Err(NumberFormat)
  {
    hide *;
    var m, mark, rest := t.members[i], marks[i], LooseMembers(t, marks, i + 1, ending);
    LooseMembersOnce(t, marks, i, ending);
    LooseMemberSplit(m, mark, rest);
    AtSplit(s, p, LooseMember(m, mark, []), rest);
    MemberProper(t, marks, i, ending);
    var pad, more := NextShows(t, marks, i, ending);
    MayFollowMeans(more);
    ClosersShow();
    LooseTurn(s, p, m, mark, pad, more, MembersOf(t, i, false));
  }

  /** And from the last member to the end. */
  lemma LooseStops(s: Str, p: nat, t: Tree, marks: seq<Mark>, ending: Str)
    requires t.TObject? && |marks| == |t.members| && t.members != [] && Ends(t, marks, ending)
    requires At(s, p, LooseMembers(t, marks, |t.members| - 1, ending))
    requires ending == [] || marks[|t.members| - 1].comma ==>
               |s| == p + |LooseMembers(t, marks, |t.members| - 1, ending)|
    ensures var i := |t.members| - 1;
            Fields(s, p, MembersOf(t, i, false)) ==
              if !NumbersFit(t.members[i].value) then Err(NumberFormat)
              else if ending == [] <==> marks[i].comma then
                Ok((JObject(MembersOf(t, i + 1, false)), p + |LooseMembers(t, marks, i, ending)|))
              else Err(IndexOutOfBounds)
  {
    hide *;
    var i := |t.members| - 1;
    var m, mark := t.members[i], marks[i];
    LooseMembersOnce(t, marks, i, ending);
    LooseMembersOnce(t, marks, i + 1, ending);
    LooseMemberSplit(m, mark, ending);
    MemberProper(t, marks, i, ending);
    BlankNothing();
    NothingBefore(ending);
    LooseTurn(s, p, m, mark, [], ending, MembersOf(t, i, false));
    if mark.comma {
      AfterComma(s, p, LooseMember(m, mark, []), ending, MembersOf(t, i + 1, false));
    }
  }

  /** After the last comma the text is at its end, or one brace before it. */
  lemma AfterComma(s: Str, p: nat, text: Str, ending: Str, sofar: map<Str, Json>)
    requires At(s, p, text + ending) && |s| == p + |text| + |ending|
    requires ending == [] || (ending[0] == CLOSE_BRACE && |ending| == 1)
    ensures Fields(s, p + |text|, sofar) == if ending == [] then Ok((JObject(sofar), |s|)) else Err(IndexOutOfBounds)
  {
    hide *;
    if ending == [] {
      FieldsOver(s, p + |text|, sofar);
    } else {
      AtSplit(s, p, text, ending);
      AtFirst(s, p + |text|, ending);
      BraceAfterComma(s, p + |text|, sofar);
    }
  }

  /** A brace behind a comma is taken for the quote of a name. */
  lemma BraceAfterComma(s: Str, p: nat, sofar: map<Str, Json>)
    requires p + 1 == |s| && s[p] == CLOSE_BRACE
    ensures Fields(s, p, sofar) == Err(IndexOutOfBounds)
  {
    FieldsOnce(s, p, sofar);
    assert SkipWhitespace(s, p) == p;
    assert StringAt(s, p) == Ok(([], p + 1));
    assert ValueAt(s, p + 2) == Ok((JNull, p + 2));
    hide Fields;
  }

  lemma NothingBefore(s: Str)
    ensures [] + s == s
  {
  }

  lemma {:induction false} LooseMembersRead(s: Str, p: nat, t: Tree, marks: seq<Mark>, i: nat, ending: Str)
    requires t.TObject? && |marks| == |t.members| && i < |t.members| && Ends(t, marks, ending)
    requires At(s, p, LooseMembers(t, marks, i, ending))
    requires ending == [] || marks[|marks| - 1].comma ==> |s| == p + |LooseMembers(t, marks, i, ending)|
    ensures Fields(s, p, MembersOf(t, i, false))
         == LooseAnswer(t, marks, i, ending, p + |LooseMembers(t, marks, i, ending)|)
    decreases |t.members| - i
  {
    hide *;
    MembersFitOnce(t, i);
    var end := p + |LooseMembers(t, marks, i, ending)|;
    LooseAnswerIs(t, marks, i, ending, end);
    if i + 1 < |t.members| {
      LooseGoesOn(s, p, t, marks, i, ending);
      LooseAnswerIs(t, marks, i + 1, ending, end);
      LooseMembersRead(s, p + |LooseMember(t.members[i], marks[i], [])|, t, marks, i + 1, ending);
    } else {
      LooseStops(s, p, t, marks, ending);
    }
  }

  /** Colons may be anything, and commas may be missing; the members are read all the same if either a
      brace or a comma comes last, and refused if both do or neither. */
  lemma LooseObjectReads(t: Tree, marks: seq<Mark>, ending: Str)
    requires t.TObject? && |marks| == |t.members| && Ends(t, marks, ending)
    ensures var s := [OPEN_BRACE] + LooseMembers(t, marks, 0, ending);
            ValueAt(s, 0) == LooseAnswer(t, marks, 0, ending, |s|)
  {
    hide *;
    var s := [OPEN_BRACE] + LooseMembers(t, marks, 0, ending);
    EndsSome(t, marks, ending);
    EndsOnce(t, marks, 0, ending);
    MembersOnce(t, 0);
    ContainerOnce(t);
    AtAll(s);
    AtSplit(s, 0, [OPEN_BRACE], LooseMembers(t, marks, 0, ending));
    LooseMembersOnce(t, marks, 0, ending);
    var m, mark := t.members[0], marks[0];
    var rest := LooseMembers(t, marks, 1, ending);
    LooseMemberOnce(m, mark, rest);
    QuotedLength(m.name);
    ClosersShow();
    FirstInside(s, 1, m.before, Quoted(m.name), m.beforeColon + ([mark.colon] + (m.afterColon + (Write(m.value)
        + (m.after + (Comma(mark.comma) + rest))))));
    ObjectOpens(s, 0, 1 + |m.before|);
    LooseMembersRead(s, 1, t, marks, 0, ending);
  }

  lemma AtAll(s: Str)
    ensures At(s, 0, s)
  {
  }

  /** At the top: parseObject returns those members. */
  lemma LooseTextReads(t: Tree, marks: seq<Mark>, ending: Str)
    requires t.TObject? && |marks| == |t.members| && Ends(t, marks, ending)
    requires ending == [CLOSE_BRACE] || marks[|marks| - 1].comma
    ensures ObjectOf([OPEN_BRACE] + LooseMembers(t, marks, 0, ending)) ==
              if !NumbersFit(t) then Err(NumberFormat)
              else if ending == [] <==> marks[|marks| - 1].comma then Ok(MembersOf(t, |t.members|, false))
              else Err(IndexOutOfBounds)
  {
    var s := [OPEN_BRACE] + LooseMembers(t, marks, 0, ending);
    LooseObjectReads(t, marks, ending);
    LooseAnswerIs(t, marks, 0, ending, |s|);
    LooseEnd(t, marks, 0, ending);
    hide *;
    EndsSome(t, marks, ending);
    EndsOnce(t, marks, 0, ending);
    ContainerOnce(t);
    TrimsNothing(s);
    TextShows(s);
  }

  lemma TrimsNothing(s: Str)
    requires s != [] && s[0] == OPEN_BRACE && (s[|s| - 1] == CLOSE_BRACE || s[|s| - 1] == COMMA)
    ensures Trim(s) == s && !IsBlank(s)
  {
    assert !IsWhitespace(s[0]);
  }

  lemma TextShows(s: Str)
    requires !IsBlank(s) && Trim(s) == s
    ensures ObjectOf(s) == match ValueAt(s, 0)
                           case Err(e) => Err(e)
                           case Ok((value, _)) => if value.JObject? then Ok(value.fields) else Err(IllegalArgument)
  {
    hide IsBlank, Trim, ValueAt;
  }

  lemma {:induction false} LooseEnd(t: Tree, marks: seq<Mark>, i: nat, ending: Str)
    requires t.TObject? && |marks| == |t.members| && i < |t.members|
    requires ending == [CLOSE_BRACE] || (ending == [] && marks[|marks| - 1].comma)
    ensures var s := LooseMembers(t, marks, i, ending);
            s != [] && (s[|s| - 1] == CLOSE_BRACE || s[|s| - 1] == COMMA)
    decreases |t.members| - i
  {
    hide *;
    LooseMembersOnce(t, marks, i, ending);
    LooseMembersOnce(t, marks, i + 1, ending);
    LooseMemberSplit(t.members[i], marks[i], LooseMembers(t, marks, i + 1, ending));
    if i + 1 < |t.members| {
      LooseEnd(t, marks, i + 1, ending);
    } else if ending == [] {
      CommaEnds(t.members[i], marks[i]);
    }
  }

  lemma CommaEnds(m: Member, mark: Mark)
    requires mark.comma
    ensures var s := LooseMember(m, mark, []); s != [] && s[|s| - 1] == COMMA
  {
    LooseMemberOnce(m, mark, []);
    hide LooseMember, Quoted, Write;
  }

  // ----- Arrays -----

  function LooseItem(item: Item, comma: bool, more: Str): Str {
    item.before + (Write(item.value) + (item.after + (Comma(comma) + more)))
  }

  /** Item i and all that follows it, up to the ending. */
  function LooseItems(t: Tree, commas: seq<bool>, i: nat, ending: Str): Str
    requires t.TArray? && |commas| == |t.items| && i <= |t.items|
    decreases |t.items| - i
  {
    if i == |t.items| then ending else LooseItem(t.items[i], commas[i], LooseItems(t, commas, i + 1, ending))
  }

  /** Two numbers in a row are two only if something stands between them. */
  predicate Apart(t: Tree, commas: seq<bool>, i: nat)
    requires t.TArray? && |commas| == |t.items| && i < |t.items|
  {
    || commas[i] || i + 1 == |t.items| || t.items[i].after != [] || t.items[i + 1].before != []
    || !t.items[i].value.TNumber? || !t.items[i + 1].value.TNumber?
  }

  predicate ItemsEnd(t: Tree, commas: seq<bool>, ending: Str)
    requires t.TArray? && |commas| == |t.items|
  {
    && t.items != [] && Readable(t)
    && (forall i | 0 <= i < |t.items| :: Apart(t, commas, i))
    && (ending == [] || ending == [CLOSE_BRACKET])
  }

  lemma ItemsEndOnce(t: Tree, commas: seq<bool>, i: nat, ending: Str)
    requires t.TArray? && |commas| == |t.items| && i < |t.items| && ItemsEnd(t, commas, ending)
    ensures Apart(t, commas, i) && Readable(t)
    ensures ending == [] || ending == [CLOSE_BRACKET]
  {
    hide Readable, Apart;
  }

  lemma ItemsEndSome(t: Tree, commas: seq<bool>, ending: Str)
    requires t.TArray? && |commas| == |t.items| && ItemsEnd(t, commas, ending)
    ensures t.items != []
  {
  }

  lemma LooseItemOnce(item: Item, comma: bool, more: Str)
    ensures LooseItem(item, comma, more) == item.before + (Write(item.value) + (item.after + (Comma(comma) + more)))
    ensures |LooseItem(item, comma, more)|
         == |item.before| + |Write(item.value)| + |item.after| + |Comma(comma)| + |more|
  {
    hide Write, Comma;
  }

  lemma LooseItemsOnce(t: Tree, commas: seq<bool>, i: nat, ending: Str)
    requires t.TArray? && |commas| == |t.items| && i <= |t.items|
    ensures LooseItems(t, commas, i, ending) ==
            if i == |t.items| then ending
            else LooseItem(t.items[i], commas[i], LooseItems(t, commas, i + 1, ending))
  {
    hide LooseItem;
  }

  /** What follows an item: white space, then the next value, the ending, or nothing. */
  lemma NextItemShows(t: Tree, commas: seq<bool>, i: nat, ending: Str) returns (pad: Str, more: Str)
    requires t.TArray? && |commas| == |t.items| && i < |t.items| && ItemsEnd(t, commas, ending)
    ensures LooseItems(t, commas, i + 1, ending) == pad + more && IsBlank(pad)
    ensures i + 1 == |t.items| ==> pad == [] && more == ending
    ensures i + 1 < |t.items| ==> more != [] && Begins(more[0]) && more[0] != COMMA
    ensures Follows(t.items[i], commas[i], pad, more)
  {
    hide *;
    ItemsEndOnce(t, commas, i, ending);
    LooseItemsOnce(t, commas, i + 1, ending);
    NoneGoesOn();
    if i + 1 == |t.items| {
      pad, more := [], ending;
      BlankNothing();
    } else {
      var item, comma := t.items[i + 1], commas[i + 1];
      ItemsOnce(t, i + 1);
      HeadShows(item.value);
      LooseItemOnce(item, comma, LooseItems(t, commas, i + 2, ending));
      pad, more := item.before, Write(item.value)
        + (item.after + (Comma(comma) + LooseItems(t, commas, i + 2, ending)));
      ApartIs(t, commas, i);
    }
    FollowsIs(t.items[i], commas[i], pad, more);
  }

  lemma ApartIs(t: Tree, commas: seq<bool>, i: nat)
    requires t.TArray? && |commas| == |t.items| && i + 1 < |t.items| && Apart(t, commas, i)
    ensures
      || commas[i] || t.items[i].after != [] || t.items[i + 1].before != []
      || !t.items[i].value.TNumber? || !t.items[i + 1].value.TNumber?
  {
  }

  /** What follows an item does not run into it. */
  predicate Follows(item: Item, comma: bool, pad: Str, more: Str) {
    item.value.TNumber? && !comma && more != [] && item.after == [] && pad == [] ==> !IsNumberUnit(more[0])
  }

  lemma FollowsIs(item: Item, comma: bool, pad: Str, more: Str)
    ensures Follows(item, comma, pad, more) <==>
              (item.value.TNumber? && !comma && more != [] && item.after == [] && pad == [] ==> !IsNumberUnit(more[0]))
  {
    hide IsNumberUnit;
  }

  lemma ItemOpens(s: Str, p: nat, item: Item, comma: bool, more: Str)
    requires IsBlank(item.before) && Readable(item.value) && At(s, p, LooseItem(item, comma, more))
    ensures var v := p + |item.before|; var q := v + |Write(item.value)|;
      && SkipWhitespace(s, p) == v < |s| && At(s, v, Write(item.value)) && At(s, q, item.after + (Comma(comma) + more))
      && p + |LooseItem(item, comma, [])| == q + |item.after| + |Comma(comma)|
  {
    hide *;
    LooseItemOnce(item, comma, more);
    LooseItemOnce(item, comma, []);
    var text, tail := Write(item.value), item.after + (Comma(comma) + more);
    HeadShows(item.value);
    BeginsIs(text[0]);
    FirstInside(s, p, item.before, text, tail);
    AtSplit(s, p, item.before, text + tail);
    AtSplit(s, p + |item.before|, text, tail);
  }

  /** One turn of parseArr's loop, over such an item. */
  lemma LooseItemTurn(s: Str, p: nat, item: Item, comma: bool, pad: Str, more: Str, sofar: seq<Json>)
    requires IsBlank(item.before) && IsBlank(item.after) && Readable(item.value)
    requires IsBlank(pad) && At(s, p, LooseItem(item, comma, pad + more)) && Follows(item, comma, pad, more)
    requires more == [] ==> pad == [] && p + |LooseItem(item, comma, [])| == |s|
    requires more != [] ==> !IsWhitespace(more[0]) && more[0] != COMMA
    ensures !NumbersFit(item.value) ==> Items(s, p, sofar) == Err(NumberFormat)
    ensures NumbersFit(item.value) ==>
              var items := sofar + [ValueOfTree(item.value, false)];
              var next := p + |LooseItem(item, comma, [])|;
              Items(s, p, sofar) == if comma then Items(s, next, items)
                                    else if more == [] then Err(IndexOutOfBounds)
                                    else if more[0] == CLOSE_BRACKET then Ok((JArray(items), next + |pad| + 1))
                                    else Items(s, next, items)
  {
    hide *;
    ItemOpens(s, p, item, comma, pad + more);
    ClosersShow();
    var v := p + |item.before|;
    var q := v + |Write(item.value)|;
    CommaIs(comma);
    FollowsIs(item, comma, pad, more);
    Behind(s, q, item.after, comma, pad, more);
    TreeReads(s, v, item.value);
    AnswerIs(item.value, q);
    ItemTurn(s, p, v, q, SkipWhitespace(s, q), sofar);
    if !comma && more != [] {
      ItemsSkip(s, q + |item.after|, sofar + [ValueOfTree(item.value, false)]);
    }
  }

  function LooseItemsAnswer(t: Tree, commas: seq<bool>, i: nat, ending: Str, end: nat): Parsed<Json>
    requires t.TArray? && |commas| == |t.items| && t.items != [] && i <= |t.items|
  {
    if !ItemsFit(t, i) then Err(NumberFormat)
    else if ending == [] <==> commas[|commas| - 1] then Ok((JArray(ItemsOf(t, |t.items|, false)), end))
    else Err(if ending == [] then IndexOutOfBounds else NumberFormat)
  }

  lemma LooseItemsAnswerIs(t: Tree, commas: seq<bool>, i: nat, ending: Str, end: nat)
    requires t.TArray? && |commas| == |t.items| && t.items != [] && i <= |t.items|
    ensures LooseItemsAnswer(t, commas, i, ending, end) ==
            if !ItemsFit(t, i) then Err(NumberFormat)
            else if ending == [] <==> commas[|commas| - 1] then Ok((JArray(ItemsOf(t, |t.items|, false)), end))
            else Err(if ending == [] then IndexOutOfBounds else NumberFormat)
  {
    hide ItemsFit, ItemsOf;
  }

  /** What the turns over the items need of the whole. */
  lemma ItemProper(t: Tree, commas: seq<bool>, i: nat, ending: Str)
    requires t.TArray? && |commas| == |t.items| && i < |t.items| && ItemsEnd(t, commas, ending)
    ensures var item := t.items[i];
      && IsBlank(item.before) && IsBlank(item.after) && Readable(item.value)
      && ItemsOf(t, i + 1, false) == ItemsOf(t, i, false) + [ValueOfTree(item.value, false)]
    ensures ending == [] || ending == [CLOSE_BRACKET]
  {
    hide *;
    ItemsEndOnce(t, commas, i, ending);
    ItemsOnce(t, i);
  }

  lemma LooseItemSplit(item: Item, comma: bool, rest: Str)
    ensures LooseItem(item, comma, rest) == LooseItem(item, comma, []) + rest
  {
    LooseItemOnce(item, comma, rest);
    LooseItemOnce(item, comma, []);
    hide LooseItem, Write, Comma;
  }

  /** From one item to the next. */
  lemma LooseItemsGoOn(s: Str, p: nat, t: Tree, commas: seq<bool>, i: nat, ending: Str)
    requires t.TArray? && |commas| == |t.items| && i + 1 < |t.items| && ItemsEnd(t, commas, ending)
    requires At(s, p, LooseItems(t, commas, i, ending))
    ensures var value, next := t.items[i].value, p + |LooseItem(t.items[i], commas[i], [])|;
            var r := Items(s, p, ItemsOf(t, i, false));
      && At(s, next, LooseItems(t, commas, i + 1, ending))
      && next + |LooseItems(t, commas, i + 1, ending)| == p + |LooseItems(t, commas, i, ending)|
      && r == if NumbersFit(value) then Items(s, next, ItemsOf(t, i + 1, false)) else Err(NumberFormat)
  {
    hide *;
    var item, comma, rest := t.items[i], commas[i], LooseItems(t, commas, i + 1, ending);
    LooseItemsOnce(t, commas, i, ending);
    LooseItemSplit(item, comma, rest);
    AtSplit(s, p, LooseItem(item, comma, []), rest);
    ItemProper(t, commas, i, ending);
    LooseItemPasses(s, p, t, commas, i, ending, ItemsOf(t, i, false));
  }

  lemma LooseItemPasses(s: Str, p: nat, t: Tree, commas: seq<bool>, i: nat, ending: Str, sofar: seq<Json>)
    requires t.TArray? && |commas| == |t.items| && i + 1 < |t.items| && ItemsEnd(t, commas, ending)
    requires At(s, p, LooseItem(t.items[i], commas[i], LooseItems(t, commas, i + 1, ending)))
    ensures var value, next := t.items[i].value, p + |LooseItem(t.items[i], commas[i], [])|;
            Items(s, p, sofar) == if NumbersFit(value) then Items(s, next, sofar + [ValueOfTree(value, false)])
                                  else Err(NumberFormat)
  {
    hide *;
    ItemProper(t, commas, i, ending);
    var pad, more := NextItemShows(t, commas, i, ending);
    BeginsIs(more[0]);
    LooseItemTurn(s, p, t.items[i], commas[i], pad, more, sofar);
  }

  /** And from the last item to the end. */
  lemma LooseItemsStop(s: Str, p: nat, t: Tree, commas: seq<bool>, ending: Str)
    requires t.TArray? && |commas| == |t.items| && t.items != [] && ItemsEnd(t, commas, ending)
    requires At(s, p, LooseItems(t, commas, |t.items| - 1, ending))
    requires ending == [] ==> |s| == p + |LooseItems(t, commas, |t.items| - 1, ending)|
    ensures var i := |t.items| - 1;
            Items(s, p, ItemsOf(t, i, false)) ==
              if !NumbersFit(t.items[i].value) then Err(NumberFormat)
              else if ending == [] <==> commas[i] then
                Ok((JArray(ItemsOf(t, i + 1, false)), p + |LooseItems(t, commas, i, ending)|))
              else Err(if ending == [] then IndexOutOfBounds else NumberFormat)
  {
    hide *;
    var i := |t.items| - 1;
    var item, comma := t.items[i], commas[i];
    LooseItemsOnce(t, commas, i, ending);
    LooseItemsOnce(t, commas, i + 1, ending);
    LooseItemSplit(item, comma, ending);
    ItemProper(t, commas, i, ending);
    BlankNothing();
    NothingBefore(ending);
    ClosersShow();
    NoneGoesOn();
    FollowsIs(item, comma, [], ending);
    LooseItemTurn(s, p, item, comma, [], ending, ItemsOf(t, i, false));
    var next := p + |LooseItem(item, comma, [])|;
    if comma && ending == [] {
      ItemsOver(s, next, ItemsOf(t, i + 1, false));
    } else if comma {
      AtSplit(s, p, LooseItem(item, comma, []), ending);
      AtFirst(s, next, ending);
      BracketAfterComma(s, next, ItemsOf(t, i + 1, false));
    }
  }

  /** A bracket behind a comma is taken for a number. */
  lemma BracketAfterComma(s: Str, p: nat, sofar: seq<Json>)
    requires p < |s| && s[p] == CLOSE_BRACKET
    ensures Items(s, p, sofar) == Err(NumberFormat)
  {
    assert SkipWhitespace(s, p) == p && NumberEnd(s, p) == p && s[p..p] == [];
    assert NumberOf([]) == Err(NumberFormat);
    assert ValueAt(s, p) == NumberAt(s, p);
    hide ValueAt, NumberOf;
  }

  lemma {:induction false} LooseItemsRead(s: Str, p: nat, t: Tree, commas: seq<bool>, i: nat, ending: Str)
    requires t.TArray? && |commas| == |t.items| && i < |t.items| && ItemsEnd(t, commas, ending)
    requires At(s, p, LooseItems(t, commas, i, ending))
    requires ending == [] ==> |s| == p + |LooseItems(t, commas, i, ending)|
    ensures Items(s, p, ItemsOf(t, i, false))
         == LooseItemsAnswer(t, commas, i, ending, p + |LooseItems(t, commas, i, ending)|)
    decreases |t.items| - i
  {
    hide *;
    ItemsFitOnce(t, i);
    var end := p + |LooseItems(t, commas, i, ending)|;
    LooseItemsAnswerIs(t, commas, i, ending, end);
    if i + 1 < |t.items| {
      LooseItemsGoOn(s, p, t, commas, i, ending);
      LooseItemsAnswerIs(t, commas, i + 1, ending, end);
      LooseItemsRead(s, p + |LooseItem(t.items[i], commas[i], [])|, t, commas, i + 1, ending);
    } else {
      LooseItemsStop(s, p, t, commas, ending);
    }
  }

  lemma ItemsOver(s: Str, p: nat, sofar: seq<Json>)
    requires p >= |s|
    ensures Items(s, p, sofar) == Ok((JArray(sofar), p))
  {
  }

  /** The same of an array, but a bracket behind a comma is refused as a number. */
  lemma LooseArrayReads(t: Tree, commas: seq<bool>, ending: Str)
    requires t.TArray? && |commas| == |t.items| && ItemsEnd(t, commas, ending)
    ensures var s := [OPEN_BRACKET] + LooseItems(t, commas, 0, ending);
            ValueAt(s, 0) == LooseItemsAnswer(t, commas, 0, ending, |s|)
  {
    hide *;
    var s := [OPEN_BRACKET] + LooseItems(t, commas, 0, ending);
    ItemsEndSome(t, commas, ending);
    ItemsEndOnce(t, commas, 0, ending);
    ItemsOnce(t, 0);
    ContainerOnce(t);
    AtAll(s);
    AtSplit(s, 0, [OPEN_BRACKET], LooseItems(t, commas, 0, ending));
    LooseItemsOnce(t, commas, 0, ending);
    var item, rest := t.items[0], LooseItems(t, commas, 1, ending);
    LooseItemOnce(item, commas[0], rest);
    HeadShows(item.value);
    BeginsIs(Write(item.value)[0]);
    FirstInside(s, 1, item.before, Write(item.value), item.after + (Comma(commas[0]) + rest));
    ArrayOpens(s, 0, 1 + |item.before|);
    LooseItemsRead(s, 1, t, commas, 0, ending);
  }
}
