/** Which texts src/json.rs refuses with which error, and how much of them is then unread. */
module JsonErrors {
  import opened Prelude
  import opened Json
  import opened JsonText

  // ---- Whole texts ----

  lemma BlankIsRefused(ws: string)
    requires AllWs(ws)
    ensures ParseJson(ws) == Err(Failure("unexpected end of input", 0))
  {
    WsSkipped(ws, "");
    assert ws + "" == ws;
  }

  /** Whatever follows a document and its whitespace is where reading stops. */
  lemma TrailingIsRefused(ws: string, doc: Doc, after: string, more: string)
    requires AllWs(ws) && Shaped(doc) && Clean(doc) && AllWs(after)
    requires more != "" && !White(more[0]) && Ends(after + more)
    ensures ParseJson(ws + Spell(doc, after + more)) == Err(Failure("trailing characters", |more|))
  {
    hide Value, Spell, Clean, Shaped, Ends;
    ValueRead(ws, doc, after + more);
    WsSkipped(after, more);
  }

  // ---- Strings ----

  /** The pieces of a string that is not closed yet. */
  function Open(ps: seq<Piece>, rest: string): string {
    if ps == [] then rest else SpellPiece(ps[0], Open(ps[1..], rest))
  }

  /** A string is refused for its first bad place, whatever was read before it. */
  lemma {:induction false} OpenFails(ps: seq<Piece>, rest: string)
    requires PiecesShaped(ps) && PiecesClean(ps) && Chars(rest).Err?
    ensures Chars(Open(ps, rest)) == Err(Chars(rest).error)
    decreases |ps|
  {
    if ps != [] {
      PieceRead(ps[0], Open(ps[1..], rest));
      CleanSplits(ps);
      OpenFails(ps[1..], rest);
      hide PieceClean, PieceShaped, PieceMeaning, SpellPiece;
    }
  }

  lemma UnclosedIsRefused(ps: seq<Piece>)
    requires PiecesShaped(ps) && PiecesClean(ps)
    ensures Chars(Open(ps, "")) == Err(Failure("unterminated string", 0))
    ensures Chars(Open(ps, "\\")) == Err(Failure("unterminated escape", 0))
  {
    assert "\\"[1..] == "";
    OpenFails(ps, "");
    OpenFails(ps, "\\");
  }

  lemma RawStops(s: string)
    requires s != "" && IsControl(s[0]) && s[0] != '"' && s[0] != '\\'
    ensures Chars(s) == Err(Failure("control character in string", |s| - 1))
  {
    hide IsControl, Escape;
  }

  lemma ControlStops(c: char, rest: string)
    requires Control(c)
    ensures Chars([c] + rest) == Err(Failure("control character in string", |rest|))
  {
    hide Chars, HexDigit, HexPlace, Unescaped, IsWhitespace, White;
    TablesAgree(c);
    RawStops([c] + rest);
  }

  lemma ControlIsRefused(ps: seq<Piece>, c: char, rest: string)
    requires PiecesShaped(ps) && PiecesClean(ps) && Control(c)
    ensures Chars(Open(ps, [c] + rest)) == Err(Failure("control character in string", |rest|))
  {
    hide PiecesShaped, PiecesClean, Control, Chars, Open;
    ControlStops(c, rest);
    OpenFails(ps, [c] + rest);
  }

  /** An escape is refused where it is. */
  lemma EscapeStops(s: string)
    requires Escape(s).Err?
    ensures Chars(['\\'] + s) == Err(Escape(s).error)
  {
    hide Escape;
    assert (['\\'] + s)[1..] == s;
  }

  lemma UnknownEscapeStops(c: char, rest: string)
    requires c !in SHORT && c != 'u'
    ensures Escape([c] + rest) == Err(Failure("invalid escape", |rest|))
  {
    hide HexDigit, HexPlace, IsWhitespace, White;
    TablesAgree(c);
  }

  lemma UnknownEscapeIsRefused(ps: seq<Piece>, c: char, rest: string)
    requires PiecesShaped(ps) && PiecesClean(ps) && c !in SHORT && c != 'u'
    ensures Chars(Open(ps, ['\\'] + ([c] + rest))) == Err(Failure("invalid escape", |rest|))
  {
    hide PiecesShaped, PiecesClean, Chars, Open, Escape;
    UnknownEscapeStops(c, rest);
    EscapeStops([c] + rest);
    OpenFails(ps, ['\\'] + ([c] + rest));
  }

  lemma SurrogateStops(h: string, rest: string)
    requires IsHex4(h) && Surrogate(HexValue(h))
    ensures Escape(['u'] + (h + rest)) == Err(Failure("invalid unicode escape", |rest|))
  {
    hide IsHex4, HexValue, Hex;
    HexOf(h, rest);
    assert (['u'] + (h + rest))[1..] == h + rest;
  }

  lemma SurrogateIsRefused(ps: seq<Piece>, h: string, rest: string)
    requires PiecesShaped(ps) && PiecesClean(ps) && IsHex4(h) && Surrogate(HexValue(h))
    ensures Chars(Open(ps, ['\\'] + (['u'] + (h + rest)))) == Err(Failure("invalid unicode escape", |rest|))
  {
    hide PiecesShaped, PiecesClean, Chars, Open, Escape, IsHex4, HexValue;
    SurrogateStops(h, rest);
    EscapeStops(['u'] + (h + rest));
    OpenFails(ps, ['\\'] + (['u'] + (h + rest)));
  }

  // ---- Arrays ----

  /** The items of an array before the next, each with its comma. */
  datatype Before = Before(ws: string, doc: Doc, after: string)

  ghost predicate Readable(b: Before) { AllWs(b.ws) && Shaped(b.doc) && Clean(b.doc) && AllWs(b.after) }

  function OpenItems(bs: seq<Before>, rest: string): string {
    if bs == [] then rest else bs[0].ws + Spell(bs[0].doc, bs[0].after + ("," + OpenItems(bs[1..], rest)))
  }

  lemma {:induction false} OpenItemsFail(bs: seq<Before>, rest: string)
    requires (forall i :: 0 <= i < |bs| ==> Readable(bs[i])) && Items(rest).Err?
    ensures Items(OpenItems(bs, rest)) == Err(Items(rest).error)
    decreases |bs|
  {
    if bs != [] {
      var b, tail := bs[0], "," + OpenItems(bs[1..], rest);
      assert Readable(b);
      OpenItemsFail(bs[1..], rest);
      ItemHead(b.ws, b.doc, b.after, tail);
      DocRead(b.doc, b.after + tail);
      WsSkipped(b.after, tail);
      assert tail[1..] == OpenItems(bs[1..], rest);
      hide Spell, Shaped, Clean, AllWs, Meaning;
    }
  }

  lemma ItemsStop(s: string, v: JsonValue, u: string)
    requires !Next(SkipWs(s), {']'}) && Value(SkipWs(s)) == Ok((v, u)) && !Next(SkipWs(u), {',', ']'})
    ensures Items(s) == Err(Failure("expected ',' or ']'", |SkipWs(u)|))
  {
    hide Value, SkipWs;
  }

  lemma SeparatorStops(b: Before, rest: string)
    requires Readable(b) && Ends(b.after + rest)
    requires rest == "" || (!White(rest[0]) && rest[0] != ',' && rest[0] != ']')
    ensures Items(b.ws + Spell(b.doc, b.after + rest)) == Err(Failure("expected ',' or ']'", |rest|))
  {
    hide Spell, Shaped, Clean, AllWs, Meaning, Value, Items, Ends, SkipWs, White;
    var s := Spell(b.doc, b.after + rest);
    DocRead(b.doc, b.after + rest);
    SpellStarts(b.doc, b.after + rest);
    WsSkipped(b.ws, s);
    WsSkipped(b.after, rest);
    ItemsStop(b.ws + s, Meaning(b.doc), b.after + rest);
  }

  /** After an item anything but a comma or the bracket is refused, where it stands. */
  lemma SeparatorIsRefused(bs: seq<Before>, b: Before, rest: string)
    requires (forall i :: 0 <= i < |bs| ==> Readable(bs[i])) && Readable(b) && Ends(b.after + rest)
    requires rest == "" || (!White(rest[0]) && rest[0] != ',' && rest[0] != ']')
    ensures Items(OpenItems(bs, b.ws + Spell(b.doc, b.after + rest))) == Err(Failure("expected ',' or ']'", |rest|))
  {
    hide Readable, Spell, Ends, OpenItems, Items;
    SeparatorStops(b, rest);
    OpenItemsFail(bs, b.ws + Spell(b.doc, b.after + rest));
  }

  // ---- Objects ----

  /** Where a key should be: an end, or anything but a quote. */
  lemma KeyIsMissing(ws: string, rest: string)
    requires AllWs(ws) && (rest == "" || (!White(rest[0]) && rest[0] != '"' && rest[0] != '}'))
    ensures Members(ws + rest) == Err(Failure("expected string", if rest == "" then 0 else |rest| - 1))
  {
    hide White, AllWs, Chars;
    WsSkipped(ws, rest);
  }

  /** After the key: an end, or anything but a colon. */
  lemma ColonIsMissing(ps: seq<Piece>, ws: string, rest: string)
    requires PiecesShaped(ps) && PiecesClean(ps) && AllWs(ws)
    requires rest == "" || (!White(rest[0]) && rest[0] != ':')
    ensures Members(['"'] + SpellPieces(ps, ws + rest))
            == Err(Failure("expected ':'", if rest == "" then 0 else |rest| - 1))
  {
    hide White, AllWs, Chars, PiecesShaped, PiecesClean, SpellPieces, PiecesMeaning;
    var s := ['"'] + SpellPieces(ps, ws + rest);
    assert s[1..] == SpellPieces(ps, ws + rest);
    PiecesRead(ps, ws + rest);
    WsSkipped(ws, rest);
    QuoteIsInk(s);
    KeyFails(s);
  }

  lemma QuoteIsInk(s: string)
    requires s != "" && s[0] == '"'
    ensures SkipWs(s) == s
  {
  }

  lemma KeyFails(s: string)
    requires SkipWs(s) == s && s != "" && s[0] == '"' && KeyOf(s).Err?
    ensures Members(s) == Err(KeyOf(s).error)
  {
    hide KeyOf, SkipWs;
  }

  /** After a member anything but a comma or the brace is refused, where it stands. */
  lemma MemberSeparatorIsRefused(key: KeyText, ws: string, doc: Doc, after: string, rest: string)
    requires KeyShaped(key) && PiecesClean(key.pieces) && Readable(Before(ws, doc, after)) && Ends(after + rest)
    requires rest == "" || (!White(rest[0]) && rest[0] != ',' && rest[0] != '}')
    ensures Members(SpellKey(key, ws + Spell(doc, after + rest))) == Err(Failure("expected ',' or '}'", |rest|))
  {
    hide Spell, SpellKey, Shaped, Clean, KeyShaped, PiecesClean, AllWs, Meaning, Value, Members, Ends, SkipWs, White;
    var t := ws + Spell(doc, after + rest);
    KeyRead(key, t);
    ValueRead(ws, doc, after + rest);
    WsSkipped(after, rest);
    MembersStop(SpellKey(key, t), t, Meaning(doc), after + rest);
  }

  lemma MembersStop(s: string, t: string, v: JsonValue, u: string)
    requires !Next(SkipWs(s), {'}'}) && KeyOf(SkipWs(s)).Ok? && KeyOf(SkipWs(s)).value.1 == t
    requires Value(t) == Ok((v, u)) && !Next(SkipWs(u), {',', '}'})
    ensures Members(s) == Err(Failure("expected ',' or '}'", |SkipWs(u)|))
  {
    hide Value, SkipWs, KeyOf;
  }

  // ---- What starts a value ----

  lemma UnexpectedIsRefused(ws: string, rest: string)
    requires AllWs(ws) && rest != "" && !White(rest[0]) && !Decimal(rest[0])
    requires rest[0] !in {'n', 't', 'f', '"', '[', '{', '-'}
    ensures Value(ws + rest) == Err(Failure("unexpected character", |rest|))
  {
    hide White, AllWs, Items, Members, NumberOf, Quoted, Literal;
    WsSkipped(ws, rest);
    TablesAgree(rest[0]);
  }

  lemma MisspeltIsRefused(ws: string, rest: string)
    requires AllWs(ws) && rest != ""
    requires || (rest[0] == 'n' && !("null" <= rest))
             || (rest[0] == 't' && !("true" <= rest))
             || (rest[0] == 'f' && !("false" <= rest))
    ensures Value(ws + rest) == Err(Failure("invalid literal", |rest|))
  {
    assert !White(rest[0]);
    hide White, AllWs, Items, Members, NumberOf, Quoted;
    WsSkipped(ws, rest);
  }

  /** A digit is missing after the sign, the point, or the mark of the exponent. */
  lemma DigitIsMissing(ws: string, negative: bool, whole: string, frac: Option<string>, mark: string, rest: string)
    requires AllWs(ws) && (rest == "" || !Decimal(rest[0]))
    requires NumberShaped(NumberText(negative, whole, frac, None))
    requires mark in {".", "e", "E", "e+", "e-", "E+", "E-"} && (mark == "." ==> frac.None?)
    requires mark in {"e", "E"} ==> rest == "" || rest[0] !in {'+', '-'}
    ensures NumberTail((if negative then "-" else "") + (whole + SpellFrac(frac, mark + rest)))
            == Err(Failure("invalid number", |rest|))
  {
    hide SpellFrac;
    var s := SpellFrac(frac, mark + rest);
    FracStarts(frac, mark + rest);
    IntegerRead(negative, whole, s);
    if mark == "." {
      assert s == mark + rest && s[1..] == rest;
    } else {
      FractionRead(frac, mark + rest);
      assert (mark + rest)[1..] == mark[1..] + rest;
      assert |mark| == 2 ==> (mark + rest)[2..] == rest;
    }
  }

  lemma FracStarts(frac: Option<string>, rest: string)
    ensures SpellFrac(frac, rest) == if frac.None? then rest else ['.'] + (frac.value + rest)
  {
  }
}
