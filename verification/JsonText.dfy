/** The texts src/json.rs accepts: documents with their layout, how they are spelled and what they mean. */
module JsonText {
  import opened Prelude
  import opened Json

  // ---- Documents ----

  /** `Short` is a two-character escape, `Unicode` one of four hexadecimal digits. */
  datatype Piece = Raw(c: char) | Short(c: char) | Unicode(h: string)

  datatype ExpText = ExpText(mark: char, sign: string, digits: string)

  /** RFC 8259, section 6. */
  datatype NumberText = NumberText(negative: bool, whole: string, frac: Option<string>, exp: Option<ExpText>)

  datatype Doc =
    | NullText
    | BoolText(b: bool)
    | NumText(n: NumberText)
    | StrText(pieces: seq<Piece>)
    | ArrText(items: ItemsText)
    | ObjText(members: MembersText)

  /** `NoItem` closes an empty array, and an array after a trailing comma. */
  datatype ItemsText =
    | NoItem(ws: string)
    | LastItem(ws: string, doc: Doc, after: string)
    | Item(ws: string, doc: Doc, after: string, rest: ItemsText)

  datatype KeyText = KeyText(ws: string, pieces: seq<Piece>, before: string)

  datatype MembersText =
    | NoMember(ws: string)
    | LastMember(key: KeyText, gap: string, doc: Doc, after: string)
    | Member(key: KeyText, gap: string, doc: Doc, after: string, rest: MembersText)

  // ---- Spelling, in front of the text that follows ----

  function SpellPiece(p: Piece, rest: string): string {
    match p
    case Raw(c) => [c] + rest
    case Short(c) => ['\\'] + ([c] + rest)
    case Unicode(h) => ['\\'] + (['u'] + (h + rest))
  }

  function SpellPieces(ps: seq<Piece>, rest: string): string {
    if ps == [] then ['"'] + rest else SpellPiece(ps[0], SpellPieces(ps[1..], rest))
  }

  function SpellExp(e: Option<ExpText>, rest: string): string {
    if e.None? then rest else [e.value.mark] + (e.value.sign + (e.value.digits + rest))
  }

  function SpellFrac(f: Option<string>, rest: string): string {
    if f.None? then rest else ['.'] + (f.value + rest)
  }

  function SpellNumber(n: NumberText, rest: string): string {
    (if n.negative then "-" else "") + (n.whole + SpellFrac(n.frac, SpellExp(n.exp, rest)))
  }

  function Spell(doc: Doc, rest: string): string
    decreases doc
  {
    match doc
    case NullText => "null" + rest
    case BoolText(b) => (if b then "true" else "false") + rest
    case NumText(n) => SpellNumber(n, rest)
    case StrText(ps) => ['"'] + SpellPieces(ps, rest)
    case ArrText(items) => ['['] + SpellItems(items, rest)
    case ObjText(members) => ['{'] + SpellMembers(members, rest)
  }

  function SpellItems(items: ItemsText, rest: string): string
    decreases items
  {
    match items
    case NoItem(ws) => ws + ("]" + rest)
    case LastItem(ws, doc, after) => ws + Spell(doc, after + ("]" + rest))
    case Item(ws, doc, after, more) => ws + Spell(doc, after + ("," + SpellItems(more, rest)))
  }

  function SpellKey(key: KeyText, rest: string): string {
    key.ws + (['"'] + SpellPieces(key.pieces, key.before + (":" + rest)))
  }

  function SpellMembers(members: MembersText, rest: string): string
    decreases members
  {
    match members
    case NoMember(ws) => ws + ("}" + rest)
    case LastMember(key, gap, doc, after) => SpellKey(key, gap + Spell(doc, after + ("}" + rest)))
    case Member(key, gap, doc, after, more) => SpellKey(key, gap + Spell(doc, after + ("," + SpellMembers(more, rest))))
  }

  // ---- Characters, by code point ----

  /** Unicode White_Space. */
  predicate White(c: char) {
    || c as int in {0x09, 0x0A, 0x0B, 0x0C, 0x0D, 0x20, 0x85, 0xA0, 0x1680, 0x2028, 0x2029, 0x202F, 0x205F, 0x3000}
    || 0x2000 <= c as int <= 0x200A
  }

  /** Unicode Cc: C0, U+007F and C1. */
  predicate Control(c: char) { c as int < 0x20 || 0x7F <= c as int < 0xA0 }

  predicate Decimal(c: char) { 0x30 <= c as int <= 0x39 }

  /** `DIGIT`, and both cases of A to F. */
  function HexPlace(c: char): Option<nat> {
    var x := c as int;
    if 0x30 <= x <= 0x39 then Some(x - 0x30)
    else if 0x41 <= x <= 0x46 then Some(x - 0x37)
    else if 0x61 <= x <= 0x66 then Some(x - 0x57)
    else None
  }

  /** The table of RFC 8259, section 7: what a two-character escape stands for. */
  const SHORT: map<char, char> := map[
    0x22 as char := 0x22 as char,  // quotation mark
    0x5C as char := 0x5C as char,  // reverse solidus
    0x2F as char := 0x2F as char,  // solidus
    0x62 as char := 0x08 as char,  // b: backspace
    0x66 as char := 0x0C as char,  // f: form feed
    0x6E as char := 0x0A as char,  // n: line feed
    0x72 as char := 0x0D as char,  // r: carriage return
    0x74 as char := 0x09 as char]  // t: tab

  predicate Surrogate(n: nat) { 0xD800 <= n < 0xE000 }

  /** The parser's own tables are these. */
  lemma TablesAgree(c: char)
    ensures IsWhitespace(c) == White(c) && IsControl(c) == Control(c) && IsDigit(c) == Decimal(c)
    ensures HexDigit(c) == HexPlace(c) && Unescaped(c) == Lookup(SHORT, c)
    ensures forall n: nat :: IsSurrogate(n) == Surrogate(n)
  {
  }

  // ---- Shape ----

  predicate AllWs(s: string) { forall i :: 0 <= i < |s| ==> White(s[i]) }
  predicate AllDigits(s: string) { forall i :: 0 <= i < |s| ==> Decimal(s[i]) }

  predicate IsHex4(h: string) { |h| == 4 && forall i :: 0 <= i < 4 ==> HexPlace(h[i]).Some? }

  function HexValue(h: string): nat
    requires IsHex4(h)
  {
    0x1000 * HexPlace(h[0]).value + 0x100 * HexPlace(h[1]).value + 0x10 * HexPlace(h[2]).value + HexPlace(h[3]).value
  }

  /** RFC 8259, section 7. */
  predicate PieceShaped(p: Piece) {
    match p
    case Raw(c) => c > '\U{1F}' && c != '"' && c != '\\'
    case Short(c) => c in SHORT
    case Unicode(h) => IsHex4(h)
  }

  predicate PiecesShaped(ps: seq<Piece>) { forall i :: 0 <= i < |ps| ==> PieceShaped(ps[i]) }

  predicate NumberShaped(n: NumberText) {
    && AllDigits(n.whole) && n.whole != "" && (n.whole[0] == '0' ==> n.whole == "0")
    && (n.frac.Some? ==> AllDigits(n.frac.value) && n.frac.value != "")
    && (n.exp.Some? ==> n.exp.value.mark in {'e', 'E'} && n.exp.value.sign in {"", "+", "-"}
                        && AllDigits(n.exp.value.digits) && n.exp.value.digits != "")
  }

  predicate Shaped(doc: Doc)
    decreases doc
  {
    match doc
    case NumText(n) => NumberShaped(n)
    case StrText(ps) => PiecesShaped(ps)
    case ArrText(items) => ItemsShaped(items)
    case ObjText(members) => MembersShaped(members)
    case _ => true
  }

  predicate ItemsShaped(items: ItemsText)
    decreases items
  {
    match items
    case NoItem(ws) => AllWs(ws)
    case LastItem(ws, doc, after) => AllWs(ws) && Shaped(doc) && AllWs(after)
    case Item(ws, doc, after, more) => AllWs(ws) && Shaped(doc) && AllWs(after) && ItemsShaped(more)
  }

  predicate KeyShaped(key: KeyText) { AllWs(key.ws) && PiecesShaped(key.pieces) && AllWs(key.before) }

  predicate MembersShaped(members: MembersText)
    decreases members
  {
    match members
    case NoMember(ws) => AllWs(ws)
    case LastMember(key, gap, doc, after) => KeyShaped(key) && AllWs(gap) && Shaped(doc) && AllWs(after)
    case Member(key, gap, doc, after, more) =>
      KeyShaped(key) && AllWs(gap) && Shaped(doc) && AllWs(after) && MembersShaped(more)
  }

  // ---- What the parser does not take from RFC 8259 ----

  /** No raw U+007F to U+009F, and no escape that is half of a surrogate pair. */
  predicate PieceClean(p: Piece) {
    match p
    case Raw(c) => !Control(c)
    case Short(_) => true
    case Unicode(h) => IsHex4(h) && !Surrogate(HexValue(h))
  }

  predicate PiecesClean(ps: seq<Piece>) { forall i :: 0 <= i < |ps| ==> PieceClean(ps[i]) }

  predicate Clean(doc: Doc)
    decreases doc
  {
    match doc
    case StrText(ps) => PiecesClean(ps)
    case ArrText(items) => ItemsClean(items)
    case ObjText(members) => MembersClean(members)
    case _ => true
  }

  predicate ItemsClean(items: ItemsText)
    decreases items
  {
    match items
    case NoItem(_) => true
    case LastItem(_, doc, _) => Clean(doc)
    case Item(_, doc, _, more) => Clean(doc) && ItemsClean(more)
  }

  predicate MembersClean(members: MembersText)
    decreases members
  {
    match members
    case NoMember(_) => true
    case LastMember(key, _, doc, _) => PiecesClean(key.pieces) && Clean(doc)
    case Member(key, _, doc, _, more) => PiecesClean(key.pieces) && Clean(doc) && MembersClean(more)
  }

  // ---- Meaning ----

  function PieceMeaning(p: Piece): char {
    match p
    case Raw(c) => c
    case Short(c) => if c in SHORT then SHORT[c] else c
    case Unicode(h) => if IsHex4(h) && !Surrogate(HexValue(h)) then HexValue(h) as char else '?'
  }

  function PiecesMeaning(ps: seq<Piece>): string {
    if ps == [] then "" else [PieceMeaning(ps[0])] + PiecesMeaning(ps[1..])
  }

  function Meaning(doc: Doc): JsonValue
    decreases doc
  {
    match doc
    case NullText => Null
    case BoolText(b) => Bool(b)
    case NumText(n) => Number(SpellNumber(n, ""))
    case StrText(ps) => String(PiecesMeaning(ps))
    case ArrText(items) => Array(ItemsMeaning(items))
    case ObjText(members) => Object(InsertAll(members, map[]))
  }

  function ItemsMeaning(items: ItemsText): seq<JsonValue>
    decreases items
  {
    match items
    case NoItem(_) => []
    case LastItem(_, doc, _) => [Meaning(doc)]
    case Item(_, doc, _, more) => [Meaning(doc)] + ItemsMeaning(more)
  }

  /** Members are inserted in the order of the text. */
  function InsertAll(members: MembersText, fields: map<string, JsonValue>): map<string, JsonValue>
    decreases members
  {
    match members
    case NoMember(_) => fields
    case LastMember(key, _, doc, _) => fields[PiecesMeaning(key.pieces) := Meaning(doc)]
    case Member(key, _, doc, _, more) => InsertAll(more, fields[PiecesMeaning(key.pieces) := Meaning(doc)])
  }

  lemma {:induction false} InsertAllOver(members: MembersText, fields: map<string, JsonValue>)
    ensures InsertAll(members, fields) == fields + InsertAll(members, map[])
    decreases members
  {
    if members.Member? {
      var k, v := PiecesMeaning(members.key.pieces), Meaning(members.doc);
      InsertAllOver(members.rest, fields[k := v]);
      InsertAllOver(members.rest, map[k := v]);
    }
  }

  // ---- Whitespace ----

  predicate NoWs(s: string) { s == "" || !White(s[0]) }

  lemma {:induction false} WsSkipped(ws: string, s: string)
    requires AllWs(ws) && NoWs(s)
    ensures SkipWs(ws + s) == s
  {
    if ws == "" {
      assert ws + s == s;
    } else {
      assert (ws + s)[1..] == ws[1..] + s;
      WsSkipped(ws[1..], s);
    }
  }

  lemma {:induction false} WsFound(s: string) returns (ws: string)
    ensures AllWs(ws) && s == ws + SkipWs(s) && NoWs(SkipWs(s))
  {
    ws := "";
    if s != "" && White(s[0]) {
      ws := WsFound(s[1..]);
      ws := [s[0]] + ws;
    }
  }

  lemma NoGap(ws: string, s: string)
    requires AllWs(ws)
    ensures NoWs(ws + s) ==> ws == ""
  {
    if ws != "" {
      assert (ws + s)[0] == ws[0];
    }
  }

  // ---- Strings ----

  lemma HexOf(h: string, rest: string)
    requires IsHex4(h)
    ensures Hex(h + rest, 4, 0) == Ok((HexValue(h), rest))
  {
    hide HexDigit, HexPlace;
    TablesAgree(h[0]);
    TablesAgree(h[1]);
    TablesAgree(h[2]);
    TablesAgree(h[3]);
    var d0, d1, d2 := HexPlace(h[0]).value, HexPlace(h[1]).value, HexPlace(h[2]).value;
    var s := h + rest;
    HexStep(s, 4, 0);
    HexStep(s[1..], 3, d0);
    HexStep(s[2..], 2, 16 * d0 + d1);
    HexStep(s[3..], 1, 16 * (16 * d0 + d1) + d2);
    assert s[4..] == rest;
  }

  lemma HexStep(s: string, n: nat, value: nat)
    requires n > 0 && s != "" && HexDigit(s[0]).Some?
    ensures Hex(s, n, value) == Hex(s[1..], n - 1, 16 * value + HexDigit(s[0]).value)
  {
  }

  lemma {:induction false} HexDigitsFound(s: string, n: nat, value: nat)
    requires Hex(s, n, value).Ok?
    ensures |s| >= n && forall i :: 0 <= i < n ==> HexDigit(s[i]).Some?
    decreases n
  {
    if n > 0 {
      HexDigitsFound(s[1..], n - 1, 16 * value + HexDigit(s[0]).value);
      hide HexDigit;
      assert forall i :: 0 < i < n ==> s[i] == s[1..][i - 1];
    }
  }

  lemma HexFound(s: string)
    requires Hex(s, 4, 0).Ok?
    ensures |s| >= 4 && IsHex4(s[..4]) && Hex(s, 4, 0) == Ok((HexValue(s[..4]), s[4..]))
  {
    hide Hex, HexDigit, HexValue, IsHex4;
    HexDigitsFound(s, 4, 0);
    HexPrefix(s);
    assert s == s[..4] + s[4..];
    HexOf(s[..4], s[4..]);
  }

  lemma HexPrefix(s: string)
    requires |s| >= 4 && forall i :: 0 <= i < 4 ==> HexDigit(s[i]).Some?
    ensures IsHex4(s[..4])
  {
    hide HexDigit, HexPlace;
    forall i | 0 <= i < 4 ensures HexPlace(s[..4][i]).Some? {
      TablesAgree(s[i]);
    }
  }

  /** One piece inside a string: read if it is clean, refused if it is not. */
  lemma PieceRead(p: Piece, rest: string)
    requires PieceShaped(p)
    ensures var r := Chars(SpellPiece(p, rest));
            if PieceClean(p) then r == Prefixed([PieceMeaning(p)], Chars(rest)) else r.Err?
  {
    var s := SpellPiece(p, rest);
    match p {
      case Raw(c) =>
        assert s[1..] == rest;
      case Short(c) =>
        assert s[1..] == [c] + rest && s[2..] == rest && s[1..][1..] == rest;
      case Unicode(h) =>
        assert s[1..] == ['u'] + (h + rest) && s[1..][1..] == h + rest;
        HexOf(h, rest);
        assert Escape(s[1..]) == UnicodeEscape(h + rest);
    }
  }

  lemma {:induction false} PiecesRead(ps: seq<Piece>, rest: string)
    requires PiecesShaped(ps)
    ensures var r := Chars(SpellPieces(ps, rest));
            if PiecesClean(ps) then r == Ok((PiecesMeaning(ps), rest)) else r.Err?
    decreases |ps|
  {
    if ps == [] {
      assert (['"'] + rest)[1..] == rest;
    } else {
      PieceRead(ps[0], SpellPieces(ps[1..], rest));
      PiecesRead(ps[1..], rest);
      CleanSplits(ps);
      hide PieceClean, PieceShaped, PieceMeaning, SpellPiece;
    }
  }

  lemma CleanSplits(ps: seq<Piece>)
    requires ps != []
    ensures PiecesClean(ps) <==> PieceClean(ps[0]) && PiecesClean(ps[1..])
  {
    hide PieceClean;
    assert forall i :: 0 <= i < |ps| - 1 ==> ps[1..][i] == ps[i + 1];
    if PieceClean(ps[0]) && PiecesClean(ps[1..]) {
      forall i | 0 <= i < |ps| ensures PieceClean(ps[i]) {
        if i > 0 {
          assert ps[i] == ps[1..][i - 1];
        }
      }
    }
  }

  lemma PieceFound(s: string) returns (p: Piece, rest: string)
    requires s != "" && s[0] != '"' && Chars(s).Ok?
    ensures PieceShaped(p) && PieceClean(p) && s == SpellPiece(p, rest) && |rest| < |s|
    ensures Chars(s) == Prefixed([PieceMeaning(p)], Chars(rest))
  {
    if s[0] != '\\' {
      p, rest := Raw(s[0]), s[1..];
      assert s == [s[0]] + rest;
    } else if s[1] != 'u' {
      p, rest := Short(s[1]), s[2..];
      assert s == ['\\'] + ([s[1]] + rest) && s[1..][1..] == rest;
    } else {
      var t := s[2..];
      assert s[1..][1..] == t;
      HexFound(t);
      p, rest := Unicode(t[..4]), t[4..];
      assert t == t[..4] + rest && s == ['\\'] + (['u'] + t);
      PieceRead(p, rest);
    }
  }

  lemma {:induction false} PiecesFound(s: string) returns (ps: seq<Piece>)
    requires Chars(s).Ok?
    ensures PiecesShaped(ps) && PiecesClean(ps)
    ensures s == SpellPieces(ps, Chars(s).value.1) && PiecesMeaning(ps) == Chars(s).value.0
    decreases |s|
  {
    ps := [];
    if s[0] == '"' {
      assert s == ['"'] + s[1..];
    } else {
      var p, rest := PieceFound(s);
      var more := PiecesFound(rest);
      ps := [p] + more;
      assert ps[1..] == more;
    }
  }

  // ---- Numbers ----

  /** What follows cannot continue a number. */
  predicate Ends(s: string) { s == "" || !(Decimal(s[0]) || s[0] in {'.', 'e', 'E'}) }

  lemma {:induction false} DigitsSkipped(ds: string, s: string)
    requires AllDigits(ds) && !NextDigit(s)
    ensures SkipDigits(ds + s) == s
  {
    if ds == "" {
      assert ds + s == s;
    } else {
      assert (ds + s)[1..] == ds[1..] + s;
      DigitsSkipped(ds[1..], s);
    }
  }

  lemma DigitsRead(ds: string, s: string)
    requires AllDigits(ds) && ds != "" && !NextDigit(s)
    ensures Digits(ds + s) == Ok(s)
  {
    assert (ds + s)[1..] == ds[1..] + s && (ds + s)[0] == ds[0];
    DigitsSkipped(ds[1..], s);
  }

  lemma {:induction false} DigitsSkippedFound(s: string) returns (ds: string)
    ensures AllDigits(ds) && s == ds + SkipDigits(s) && !NextDigit(SkipDigits(s))
  {
    ds := "";
    if NextDigit(s) {
      var more := DigitsSkippedFound(s[1..]);
      ds := [s[0]] + more;
      OneMoreDigit(s, more);
    }
  }

  lemma OneMoreDigit(s: string, more: string)
    requires NextDigit(s) && AllDigits(more) && s[1..] == more + SkipDigits(s[1..])
    ensures AllDigits([s[0]] + more) && s == ([s[0]] + more) + SkipDigits(s)
  {
    var rest := SkipDigits(s[1..]);
    assert SkipDigits(s) == rest;
    hide SkipDigits;
    Regroup(s[0], more, rest);
    assert s == [s[0]] + s[1..];
    DigitFirst(s[0], more);
    hide AllDigits;
  }

  lemma Regroup(c: char, a: string, b: string)
    ensures [c] + (a + b) == ([c] + a) + b
  {
  }

  lemma DigitFirst(c: char, ds: string)
    requires Decimal(c) && AllDigits(ds)
    ensures AllDigits([c] + ds)
  {
  }

  lemma DigitsFound(s: string) returns (ds: string)
    requires Digits(s).Ok?
    ensures AllDigits(ds) && ds != "" && ds[0] == s[0] && s == ds + Digits(s).value && !NextDigit(Digits(s).value)
  {
    hide SkipDigits;
    var more := DigitsSkippedFound(s[1..]);
    ds := [s[0]] + more;
    assert s == [s[0]] + s[1..];
  }

  lemma ExponentRead(e: Option<ExpText>, s: string)
    requires e.Some? ==>
              e.value.mark in {'e', 'E'} && e.value.sign in {"", "+", "-"} && AllDigits(e.value.digits)
              && e.value.digits != ""
    requires Ends(s)
    ensures Exponent(SpellExp(e, s)) == Ok(s)
  {
    if e.Some? {
      var t := SpellExp(e, s);
      var tail := e.value.digits + s;
      DigitsRead(e.value.digits, s);
      assert t[1..] == e.value.sign + tail;
      if e.value.sign == "" {
        assert t[1..] == tail && tail[0] == e.value.digits[0];
      } else {
        assert t[2..] == tail;
      }
    }
  }

  lemma FractionRead(f: Option<string>, s: string)
    requires (f.Some? ==> AllDigits(f.value) && f.value != "") && !NextDigit(s) && !Next(s, {'.'})
    ensures Fraction(SpellFrac(f, s)) == Ok(s)
  {
    if f.Some? {
      assert SpellFrac(f, s)[1..] == f.value + s;
      DigitsRead(f.value, s);
    }
  }

  lemma IntegerRead(negative: bool, whole: string, s: string)
    requires AllDigits(whole) && whole != "" && (whole[0] == '0' ==> whole == "0") && !NextDigit(s)
    ensures Integer((if negative then "-" else "") + (whole + s)) == Ok(s)
  {
    var t := whole + s;
    var all := (if negative then "-" else "") + t;
    assert t[0] == whole[0];
    if negative {
      assert all[1..] == t;
    } else {
      assert all == t;
    }
    if whole == "0" {
      assert t[1..] == s;
    } else {
      DigitsRead(whole, s);
    }
  }

  lemma SpellNumberIn(n: NumberText, s: string)
    ensures SpellNumber(n, s) == SpellNumber(n, "") + s
  {
    assert SpellExp(n.exp, s) == SpellExp(n.exp, "") + s;
    assert SpellFrac(n.frac, SpellExp(n.exp, s)) == SpellFrac(n.frac, SpellExp(n.exp, "")) + s;
  }

  lemma NumberRead(n: NumberText, s: string)
    requires NumberShaped(n) && Ends(s)
    ensures NumberOf(SpellNumber(n, s)) == Ok((Number(SpellNumber(n, "")), s))
  {
    var e := SpellExp(n.exp, s);
    var f := SpellFrac(n.frac, e);
    IntegerRead(n.negative, n.whole, f);
    FractionRead(n.frac, e);
    ExponentRead(n.exp, s);
    SpellNumberIn(n, s);
    var all, lexeme := SpellNumber(n, s), SpellNumber(n, "");
    assert all[..|all| - |s|] == lexeme;
  }

  lemma ExponentFound(s: string) returns (e: Option<ExpText>)
    requires Exponent(s).Ok?
    ensures e.Some? ==>
              e.value.mark in {'e', 'E'} && e.value.sign in {"", "+", "-"} && AllDigits(e.value.digits)
              && e.value.digits != ""
    ensures s == SpellExp(e, Exponent(s).value)
  {
    e := None;
    if Next(s, {'e', 'E'}) {
      var signed := Next(s[1..], {'+', '-'});
      var sign := if signed then [s[1]] else "";
      var ds := DigitsFound(if signed then s[2..] else s[1..]);
      e := Some(ExpText(s[0], sign, ds));
      assert s == [s[0]] + (sign + (if signed then s[2..] else s[1..]));
    }
  }

  lemma IntegerFound(s: string) returns (negative: bool, whole: string)
    requires Integer(s).Ok?
    ensures AllDigits(whole) && whole != "" && (whole[0] == '0' ==> whole == "0")
    ensures s == (if negative then "-" else "") + (whole + Integer(s).value)
  {
    negative := Next(s, {'-'});
    var t := if negative then s[1..] else s;
    assert s == (if negative then "-" else "") + t;
    whole := "0";
    if Next(t, {'0'}) {
      assert t == whole + t[1..];
    } else {
      whole := DigitsFound(t);
    }
  }

  lemma FractionFound(s: string) returns (f: Option<string>)
    requires Fraction(s).Ok?
    ensures (f.Some? ==> AllDigits(f.value) && f.value != "") && s == SpellFrac(f, Fraction(s).value)
  {
    f := None;
    if Next(s, {'.'}) {
      var ds := DigitsFound(s[1..]);
      f := Some(ds);
      assert s == ['.'] + s[1..];
    }
  }

  lemma NumberFound(s: string) returns (n: NumberText)
    requires NumberOf(s).Ok?
    ensures NumberShaped(n) && s == SpellNumber(n, NumberOf(s).value.1)
            && NumberOf(s).value.0 == Number(SpellNumber(n, ""))
  {
    var negative, whole := IntegerFound(s);
    var u := Integer(s).value;
    var frac := FractionFound(u);
    var v := Fraction(u).value;
    var exp := ExponentFound(v);
    n := NumberText(negative, whole, frac, exp);
    var rest := Exponent(v).value;
    SpellNumberIn(n, rest);
    assert s[..|s| - |rest|] == SpellNumber(n, "");
  }

  // ---- Values: what is spelled is read ----

  lemma SpellStarts(doc: Doc, rest: string)
    requires Shaped(doc)
    ensures var s := Spell(doc, rest); s != "" && NoWs(s) && s[0] != ']'
  {
  }

  lemma AfterEnds(after: string, s: string)
    requires AllWs(after) && s != "" && s[0] in {',', ']', '}'}
    ensures Ends(after + s) && SkipWs(after + s) == s
  {
    WsSkipped(after, s);
  }

  lemma LiteralRead(lit: string, v: JsonValue, rest: string)
    requires lit != ""
    ensures Literal(lit + rest, lit, v) == Ok((v, rest))
  {
    assert (lit + rest)[|lit|..] == rest;
  }

  lemma AtomRead(doc: Doc, rest: string)
    requires Shaped(doc) && Ends(rest) && !doc.ArrText? && !doc.ObjText?
    ensures var r := Value(Spell(doc, rest));
            if Clean(doc) then r == Ok((Meaning(doc), rest)) else r.Err?
  {
    hide Literal, NumberOf, Chars, SpellPieces, PiecesMeaning, PiecesClean, PiecesShaped, Items, Members, SpellNumber;
    var s := Spell(doc, rest);
    SpellStarts(doc, rest);
    match doc {
      case NumText(n) =>
        NumberRead(n, rest);
        NumberStarts(n, rest);
      case StrText(ps) =>
        assert s[1..] == SpellPieces(ps, rest);
        PiecesRead(ps, rest);
      case NullText => LiteralRead("null", Null, rest);
      case BoolText(b) => LiteralRead(if b then "true" else "false", Bool(b), rest);
    }
  }

  lemma NumberStarts(n: NumberText, rest: string)
    requires NumberShaped(n)
    ensures var s := SpellNumber(n, rest); s != "" && (s[0] == '-' || Decimal(s[0]))
  {
  }

  lemma {:induction false} ValueRead(ws: string, doc: Doc, rest: string)
    requires AllWs(ws) && Shaped(doc) && Ends(rest)
    ensures var r := Value(ws + Spell(doc, rest));
            if Clean(doc) then r == Ok((Meaning(doc), rest)) else r.Err?
    decreases doc, 1
  {
    SpellStarts(doc, rest);
    WsSkipped(ws, Spell(doc, rest));
    DocRead(doc, rest);
    SameValue(ws + Spell(doc, rest), Spell(doc, rest));
  }

  /** Leading whitespace does not matter. */
  lemma SameValue(s: string, t: string)
    requires SkipWs(s) == SkipWs(t)
    ensures Value(s) == Value(t)
  {
  }

  lemma {:induction false} DocRead(doc: Doc, rest: string)
    requires Shaped(doc) && Ends(rest)
    ensures var r := Value(Spell(doc, rest));
            if Clean(doc) then r == Ok((Meaning(doc), rest)) else r.Err?
    decreases doc, 0
  {
    hide SpellItems, SpellMembers, ItemsShaped, MembersShaped, ItemsMeaning, InsertAll, ItemsClean, MembersClean;
    hide Items, Members, Quoted, NumberOf, Literal, SpellNumber, SpellPieces;
    match doc {
      case ArrText(items) =>
        assert Spell(doc, rest)[1..] == SpellItems(items, rest);
        ItemsRead(items, rest);
      case ObjText(members) =>
        assert Spell(doc, rest)[1..] == SpellMembers(members, rest);
        MembersRead(members, rest);
      case _ => AtomRead(doc, rest);
    }
  }

  lemma ItemHead(ws: string, doc: Doc, after: string, tail: string)
    requires AllWs(ws) && Shaped(doc) && AllWs(after) && tail != "" && tail[0] in {',', ']'}
    ensures Ends(after + tail) && SkipWs(after + tail) == tail
    ensures var s := Spell(doc, after + tail); SkipWs(ws + s) == s && !Next(s, {']'})
  {
    AfterEnds(after, tail);
    SpellStarts(doc, after + tail);
    WsSkipped(ws, Spell(doc, after + tail));
  }

  lemma {:induction false} ItemsRead(items: ItemsText, rest: string)
    requires ItemsShaped(items)
    ensures var r := Items(SpellItems(items, rest));
            if ItemsClean(items) then r == Ok((ItemsMeaning(items), rest)) else r.Err?
    decreases items, 0
  {
    match items {
      case NoItem(ws) =>
        WsSkipped(ws, "]" + rest);
      case LastItem(ws, doc, after) =>
        var tail := "]" + rest;
        ItemHead(ws, doc, after, tail);
        DocRead(doc, after + tail);
        assert tail[1..] == rest;
      case Item(ws, doc, after, more) =>
        var tail := "," + SpellItems(more, rest);
        ItemHead(ws, doc, after, tail);
        DocRead(doc, after + tail);
        ItemsRead(more, rest);
        assert tail[1..] == SpellItems(more, rest);
    }
  }

  lemma KeyRead(key: KeyText, rest: string)
    requires KeyShaped(key)
    ensures var s := SpellKey(key, rest);
            var r := KeyOf(SkipWs(s));
            && !Next(SkipWs(s), {'}'})
            && (if PiecesClean(key.pieces) then r == Ok((PiecesMeaning(key.pieces), rest)) else r.Err?)
  {
    var tail := ":" + rest;
    var quoted := ['"'] + SpellPieces(key.pieces, key.before + tail);
    WsSkipped(key.ws, quoted);
    assert quoted[1..] == SpellPieces(key.pieces, key.before + tail);
    PiecesRead(key.pieces, key.before + tail);
    WsSkipped(key.before, tail);
    assert tail[1..] == rest;
  }

  lemma {:induction false} MembersRead(members: MembersText, rest: string)
    requires MembersShaped(members)
    ensures var r := Members(SpellMembers(members, rest));
            if MembersClean(members) then r == Ok((InsertAll(members, map[]), rest)) else r.Err?
    decreases members, 0
  {
    hide Spell, SpellKey, Meaning, PiecesMeaning, Value, KeyOf, Shaped, KeyShaped, Clean, PiecesClean;
    match members {
      case NoMember(ws) =>
        WsSkipped(ws, "}" + rest);
      case LastMember(key, gap, doc, after) =>
        var tail := "}" + rest;
        AfterEnds(after, tail);
        KeyRead(key, gap + Spell(doc, after + tail));
        ValueRead(gap, doc, after + tail);
        assert tail[1..] == rest;
      case Member(key, gap, doc, after, more) =>
        var tail := "," + SpellMembers(more, rest);
        AfterEnds(after, tail);
        KeyRead(key, gap + Spell(doc, after + tail));
        ValueRead(gap, doc, after + tail);
        MembersRead(more, rest);
        assert tail[1..] == SpellMembers(more, rest);
        InsertAllOver(more, map[PiecesMeaning(key.pieces) := Meaning(doc)]);
    }
  }

  // ---- Values: what is read was spelled ----

  lemma LiteralFound(s: string, lit: string, v: JsonValue)
    requires lit != "" && Literal(s, lit, v).Ok?
    ensures s == lit + Literal(s, lit, v).value.1
  {
  }

  lemma {:induction false} ValueFound(s: string) returns (ws: string, doc: Doc)
    requires Value(s).Ok?
    ensures AllWs(ws) && Shaped(doc) && Clean(doc)
    ensures s == ws + Spell(doc, Value(s).value.1) && Meaning(doc) == Value(s).value.0
    decreases |s|, 0
  {
    ws := WsFound(s);
    var t := SkipWs(s);
    if t[0] == 'n' {
      doc := NullText;
      LiteralFound(t, "null", Null);
    } else if t[0] == 't' {
      doc := BoolText(true);
      LiteralFound(t, "true", Bool(true));
    } else if t[0] == 'f' {
      doc := BoolText(false);
      LiteralFound(t, "false", Bool(false));
    } else if t[0] == '"' {
      var ps := PiecesFound(t[1..]);
      doc := StrText(ps);
      assert t == ['"'] + t[1..];
    } else if t[0] == '[' {
      var items := ItemsFound(t[1..]);
      doc := ArrText(items);
      assert t == ['['] + t[1..];
    } else if t[0] == '{' {
      var members := MembersFound(t[1..]);
      doc := ObjText(members);
      assert t == ['{'] + t[1..];
    } else {
      var n := NumberFound(t);
      doc := NumText(n);
    }
  }

  lemma {:induction false} ItemsFound(s: string) returns (items: ItemsText)
    requires Items(s).Ok?
    ensures ItemsShaped(items) && ItemsClean(items)
    ensures s == SpellItems(items, Items(s).value.1) && ItemsMeaning(items) == Items(s).value.0
    decreases |s|, 1
  {
    hide Spell, Meaning, Value, Shaped, Clean, SkipWs, AllWs, NoWs;
    var ws := WsFound(s);
    var t := SkipWs(s);
    if Next(t, {']'}) {
      items := NoItem(ws);
      assert t == "]" + t[1..];
    } else {
      var gap, doc := ValueFound(t);
      var u := Value(t).value.1;
      NoGap(gap, Spell(doc, u));
      assert t == Spell(doc, u);
      var after := WsFound(u);
      var w := SkipWs(u);
      if Next(w, {']'}) {
        items := LastItem(ws, doc, after);
        assert w == "]" + w[1..];
      } else {
        var more := ItemsFound(w[1..]);
        items := Item(ws, doc, after, more);
        assert w == "," + w[1..];
      }
    }
  }

  lemma KeyFound(s: string) returns (key: KeyText)
    requires KeyOf(SkipWs(s)).Ok?
    ensures KeyShaped(key) && PiecesClean(key.pieces)
    ensures s == SpellKey(key, KeyOf(SkipWs(s)).value.1) && PiecesMeaning(key.pieces) == KeyOf(SkipWs(s)).value.0
  {
    hide SkipWs, Chars, SpellPieces, PiecesMeaning, PiecesShaped, PiecesClean, AllWs;
    var ws := WsFound(s);
    var t := SkipWs(s);
    assert t == ['"'] + t[1..];
    var ps := PiecesFound(t[1..]);
    var u := Quoted(t).value.1;
    var before := WsFound(u);
    var w := SkipWs(u);
    assert w == ":" + w[1..];
    key := KeyText(ws, ps, before);
  }

  lemma {:induction false} MembersFound(s: string) returns (members: MembersText)
    requires Members(s).Ok?
    ensures MembersShaped(members) && MembersClean(members)
    ensures s == SpellMembers(members, Members(s).value.1) && InsertAll(members, map[]) == Members(s).value.0
    decreases |s|, 1
  {
    hide Spell, SpellKey, Meaning, PiecesMeaning, Value, KeyOf, Shaped, KeyShaped, Clean, SkipWs;
    var t := SkipWs(s);
    if Next(t, {'}'}) {
      var ws := WsFound(s);
      members := NoMember(ws);
      assert t == "}" + t[1..];
    } else {
      var key := KeyFound(s);
      var u := KeyOf(t).value.1;
      var gap, doc := ValueFound(u);
      var x := Value(u).value.1;
      var after := WsFound(x);
      var w := SkipWs(x);
      if Next(w, {'}'}) {
        members := LastMember(key, gap, doc, after);
        assert w == "}" + w[1..];
      } else {
        var more := MembersFound(w[1..]);
        members := Member(key, gap, doc, after, more);
        assert w == "," + w[1..];
        InsertAllOver(more, map[PiecesMeaning(key.pieces) := Meaning(doc)]);
      }
    }
  }

  // ---- The language of the parser ----

  lemma WsEnds(after: string)
    requires AllWs(after)
    ensures Ends(after) && SkipWs(after) == ""
  {
    assert after + "" == after;
    WsSkipped(after, "");
  }

  /** A spelled document parses to its meaning when it is clean, and is refused when it is not. */
  lemma SpelledIsRead(ws: string, doc: Doc, after: string)
    requires AllWs(ws) && Shaped(doc) && AllWs(after)
    ensures var r := ParseJson(ws + Spell(doc, after));
            if Clean(doc) then r == Ok(Meaning(doc)) else r.Err?
  {
    WsEnds(after);
    ValueRead(ws, doc, after);
  }

  ghost predicate Spells(input: string, ws: string, doc: Doc, after: string, v: JsonValue) {
    AllWs(ws) && Shaped(doc) && Clean(doc) && AllWs(after) && input == ws + Spell(doc, after) && Meaning(doc) == v
  }

  /** The parser answers `v` exactly on the spellings of documents that mean `v`. */
  lemma ParsesIffSpelled(input: string, v: JsonValue)
    ensures ParseJson(input) == Ok(v) <==> exists ws, doc, after :: Spells(input, ws, doc, after, v)
  {
    if ParseJson(input) == Ok(v) {
      var ws, doc := ValueFound(input);
      var after := WsFound(Value(input).value.1);
      assert after + "" == after;
      assert Spells(input, ws, doc, after, v);
    }
    if ws, doc, after :| Spells(input, ws, doc, after, v) {
      SpelledIsRead(ws, doc, after);
    }
  }

  // ---- Printing ----

  ghost predicate IsLexeme(text: string, n: NumberText) { NumberShaped(n) && SpellNumber(n, "") == text }

  /** Every number in the value has a section 6 lexeme. */
  ghost predicate Printable(v: JsonValue)
    decreases v
  {
    match v
    case Number(text) => exists n :: IsLexeme(text, n)
    case Array(items) => forall i :: 0 <= i < |items| ==> Printable(items[i])
    case Object(fields) => forall k :: k in fields.Keys ==> Printable(fields[k])
    case _ => true
  }

  function HexChar(n: nat): char
    requires n < 16
  {
    "0123456789abcdef"[n]
  }

  /** Control characters are escaped, U+007F to U+009F included; characters outside the BMP stay raw. */
  function PrintPiece(c: char): Piece {
    if c == '"' || c == '\\' then Short(c)
    else if Control(c) then Unicode(['0', '0', HexChar(c as nat / 16), HexChar(c as nat % 16)])
    else Raw(c)
  }

  function PrintPieces(s: string): (ps: seq<Piece>)
    ensures |ps| == |s|
  {
    if s == "" then [] else [PrintPiece(s[0])] + PrintPieces(s[1..])
  }

  /** The value without whitespace, its members in some order. */
  ghost function Print(v: JsonValue): Doc
    requires Printable(v)
    decreases v, 1, 0
  {
    match v
    case Null => NullText
    case Bool(b) => BoolText(b)
    case Number(text) => (var n :| IsLexeme(text, n); NumText(n))
    case String(s) => StrText(PrintPieces(s))
    case Array(items) => ArrText(if items == [] then NoItem("") else PrintItems(v, 0))
    case Object(fields) => ObjText(if fields == map[] then NoMember("") else PrintMembers(v, fields.Keys))
  }

  ghost function PrintItems(v: JsonValue, i: nat): ItemsText
    requires Printable(v) && v.Array? && i < |v.items|
    decreases v, 0, |v.items| - i
  {
    if i == |v.items| - 1 then LastItem("", Print(v.items[i]), "")
    else Item("", Print(v.items[i]), "", PrintItems(v, i + 1))
  }

  ghost function PrintMembers(v: JsonValue, left: set<string>): MembersText
    requires Printable(v) && v.Object? && left != {} && left <= v.fields.Keys
    decreases v, 0, |left|
  {
    var k :| k in left;
    var key := KeyText("", PrintPieces(k), "");
    if left == {k} then LastMember(key, "", Print(v.fields[k]), "")
    else Member(key, "", Print(v.fields[k]), "", PrintMembers(v, left - {k}))
  }

  // ---- Strictness: section 2 whitespace, no trailing commas ----

  predicate StrictWs(s: string) { forall i :: 0 <= i < |s| ==> s[i] in {' ', '\t', '\n', '\r'} }

  predicate Strict(doc: Doc)
    decreases doc
  {
    match doc
    case NumText(n) => NumberShaped(n)
    case StrText(ps) => PiecesShaped(ps)
    case ArrText(items) => (items.NoItem? && StrictWs(items.ws)) || StrictItems(items)
    case ObjText(members) => (members.NoMember? && StrictWs(members.ws)) || StrictMembers(members)
    case _ => true
  }

  predicate StrictItems(items: ItemsText)
    decreases items
  {
    match items
    case NoItem(_) => false
    case LastItem(ws, doc, after) => StrictWs(ws) && Strict(doc) && StrictWs(after)
    case Item(ws, doc, after, more) => StrictWs(ws) && Strict(doc) && StrictWs(after) && StrictItems(more)
  }

  predicate StrictKey(key: KeyText) { StrictWs(key.ws) && PiecesShaped(key.pieces) && StrictWs(key.before) }

  predicate StrictMembers(members: MembersText)
    decreases members
  {
    match members
    case NoMember(_) => false
    case LastMember(key, gap, doc, after) => StrictKey(key) && StrictWs(gap) && Strict(doc) && StrictWs(after)
    case Member(key, gap, doc, after, more) =>
      StrictKey(key) && StrictWs(gap) && Strict(doc) && StrictWs(after) && StrictMembers(more)
  }

  lemma {:induction false} StrictIsShaped(doc: Doc)
    requires Strict(doc)
    ensures Shaped(doc)
    decreases doc
  {
    if doc.ArrText? && !doc.items.NoItem? {
      StrictItemsShaped(doc.items);
    }
    if doc.ObjText? && !doc.members.NoMember? {
      StrictMembersShaped(doc.members);
    }
  }

  lemma {:induction false} StrictItemsShaped(items: ItemsText)
    requires StrictItems(items)
    ensures ItemsShaped(items)
    decreases items
  {
    StrictIsShaped(items.doc);
    if items.Item? {
      StrictItemsShaped(items.rest);
    }
  }

  lemma {:induction false} StrictMembersShaped(members: MembersText)
    requires StrictMembers(members)
    ensures MembersShaped(members)
    decreases members
  {
    StrictIsShaped(members.doc);
    if members.Member? {
      StrictMembersShaped(members.rest);
    }
  }

  /** Every RFC 8259 text is read to its meaning exactly when it is clean; otherwise it is refused. */
  lemma StrictIsReadIffClean(ws: string, doc: Doc, after: string)
    requires StrictWs(ws) && Strict(doc) && StrictWs(after)
    ensures var r := ParseJson(ws + Spell(doc, after));
            (r == Ok(Meaning(doc)) <==> Clean(doc)) && (r.Err? <==> !Clean(doc))
  {
    StrictIsShaped(doc);
    SpelledIsRead(ws, doc, after);
  }

  // ---- Print, then parse ----

  lemma PrintPieceMeans(c: char)
    ensures PieceShaped(PrintPiece(c)) && PieceClean(PrintPiece(c)) && PieceMeaning(PrintPiece(c)) == c
  {
    if Control(c) {
      HexCharMeans(c as nat / 16);
      HexCharMeans(c as nat % 16);
      hide HexChar, HexDigit;
      var h := PrintPiece(c).h;
      assert HexDigit('0') == Some(0) by {
        HexCharMeans(0);
      }
      assert h[0] == '0' && h[1] == '0' && h[2] == HexChar(c as nat / 16) && h[3] == HexChar(c as nat % 16);
      assert HexValue(h) == c as nat;
    }
  }

  lemma HexCharMeans(n: nat)
    requires n < 16
    ensures HexDigit(HexChar(n)) == Some(n) && (n == 0 ==> HexChar(n) == '0')
  {
  }

  lemma {:induction false} PrintPiecesMean(s: string)
    ensures var ps := PrintPieces(s); PiecesShaped(ps) && PiecesClean(ps) && PiecesMeaning(ps) == s
  {
    if s != "" {
      PrintPieceMeans(s[0]);
      PrintPiecesMean(s[1..]);
      hide PrintPiece, PieceMeaning, PieceShaped, PieceClean;
      var ps := PrintPieces(s);
      assert ps[1..] == PrintPieces(s[1..]);
      forall i | 0 <= i < |ps| ensures PieceShaped(ps[i]) && PieceClean(ps[i]) {
        if i > 0 {
          assert ps[i] == ps[1..][i - 1];
        }
      }
    }
  }

  lemma {:induction false} PrintMeans(v: JsonValue)
    requires Printable(v)
    ensures Strict(Print(v)) && Clean(Print(v)) && Meaning(Print(v)) == v
    decreases v, 1, 0
  {
    match v {
      case String(s) => PrintPiecesMean(s);
      case Array(items) =>
        if items != [] {
          PrintItemsMean(v, 0);
        }
      case Object(fields) =>
        if fields != map[] {
          PrintMembersMean(v, fields.Keys, map[]);
          assert Only(fields, fields.Keys) == fields;
        }
      case _ =>
    }
  }

  lemma {:induction false} PrintItemsMean(v: JsonValue, i: nat)
    requires Printable(v) && v.Array? && i < |v.items|
    ensures var t := PrintItems(v, i); StrictItems(t) && ItemsClean(t) && ItemsMeaning(t) == v.items[i..]
    decreases v, 0, |v.items| - i
  {
    hide Strict, Clean, Meaning, Print, PrintPieces, PiecesMeaning, PiecesShaped, PiecesClean, PrintMembers;
    PrintMeans(v.items[i]);
    if i < |v.items| - 1 {
      PrintItemsMean(v, i + 1);
      assert v.items[i..] == [v.items[i]] + v.items[i + 1..];
    }
  }

  function Only(fields: map<string, JsonValue>, keys: set<string>): map<string, JsonValue>
    requires keys <= fields.Keys
  {
    map k | k in keys :: fields[k]
  }

  lemma OnlyStep(fields: map<string, JsonValue>, keys: set<string>, k: string, acc: map<string, JsonValue>)
    requires k in keys && keys <= fields.Keys
    ensures acc[k := fields[k]] + Only(fields, keys - {k}) == acc + Only(fields, keys)
  {
  }

  lemma {:induction false} PrintMembersMean(v: JsonValue, left: set<string>, acc: map<string, JsonValue>)
    requires Printable(v) && v.Object? && left != {} && left <= v.fields.Keys
    ensures var t := PrintMembers(v, left);
            StrictMembers(t) && MembersClean(t) && InsertAll(t, acc) == acc + Only(v.fields, left)
    decreases v, 0, |left|
  {
    hide Strict, Clean, Meaning, Only, Print, PrintPieces, PiecesMeaning, PiecesShaped, PiecesClean, PiecesMeaning;
    var t := PrintMembers(v, left);
    var k := MemberOf(v, left);
    PrintPiecesMean(k);
    PrintMeans(v.fields[k]);
    OnlyStep(v.fields, left, k, acc);
    if left != {k} {
      PrintMembersMean(v, left - {k}, acc[k := v.fields[k]]);
    } else {
      NoneLeft(v.fields, left, k, acc);
    }
  }

  lemma NoneLeft(fields: map<string, JsonValue>, keys: set<string>, k: string, acc: map<string, JsonValue>)
    requires keys == {k} && keys <= fields.Keys
    ensures acc + Only(fields, keys) == acc[k := fields[k]]
  {
  }

  /** The member printed first. */
  lemma MemberOf(v: JsonValue, left: set<string>) returns (k: string)
    requires Printable(v) && v.Object? && left != {} && left <= v.fields.Keys
    ensures k in left && Printable(v.fields[k])
    ensures var t := PrintMembers(v, left);
            var key := KeyText("", PrintPieces(k), "");
            t == if left == {k} then LastMember(key, "", Print(v.fields[k]), "")
                 else Member(key, "", Print(v.fields[k]), "", PrintMembers(v, left - {k}))
  {
    hide Print, PrintPieces;
    k :| k in left && PrintMembers(v, left) == (
      var key := KeyText("", PrintPieces(k), "");
      if left == {k} then LastMember(key, "", Print(v.fields[k]), "")
      else Member(key, "", Print(v.fields[k]), "", PrintMembers(v, left - {k})));
  }

  /** The round trip: a printed value is an RFC 8259 text, and parses to the value it came from. */
  lemma PrintThenParse(v: JsonValue)
    requires Printable(v)
    ensures Strict(Print(v)) && ParseJson(Spell(Print(v), "")) == Ok(v)
  {
    PrintMeans(v);
    var empty: string := "";
    StrictIsReadIffClean(empty, Print(v), empty);
    assert empty + Spell(Print(v), empty) == Spell(Print(v), empty);
  }

  // ---- Not quite RFC 8259 ----

  /** A trailing comma is accepted after any item. */
  lemma TrailingCommaIsRead(doc: Doc)
    requires Shaped(doc) && Clean(doc)
    ensures var text := ArrText(Item("", doc, "", NoItem("")));
            !Strict(text) && ParseJson(Spell(text, "")) == Ok(Array([Meaning(doc)]))
  {
    hide ParseJson;
    var empty: string := "";
    var items := Item(empty, doc, empty, NoItem(empty));
    var text := ArrText(items);
    assert ItemsMeaning(items) == [Meaning(doc)] + ItemsMeaning(NoItem(empty)) == [Meaning(doc)];
    assert !StrictItems(items.rest) && Meaning(text) == Array([Meaning(doc)]);
    assert AllWs(empty) && ItemsShaped(items.rest) && ItemsClean(items.rest);
    assert ItemsShaped(items) && ItemsClean(items);
    SpelledIsRead(empty, text, empty);
    assert empty + Spell(text, empty) == Spell(text, empty);
  }

  /** A character written as a surrogate pair is refused, though section 7 allows it. */
  lemma SurrogatePairIsRefused(high: string, low: string)
    requires IsHex4(high) && IsHex4(low) && 0xD800 <= HexValue(high) < 0xDC00 <= HexValue(low) < 0xE000
    ensures var text := StrText([Unicode(high), Unicode(low)]); Strict(text) && ParseJson(Spell(text, "")).Err?
  {
    hide ParseJson, Spell;
    var empty: string := "";
    var ps := [Unicode(high), Unicode(low)];
    assert !PieceClean(ps[0]);
    StrictIsReadIffClean(empty, StrText(ps), empty);
    assert empty + Spell(StrText(ps), empty) == Spell(StrText(ps), empty);
  }
}
