/** `Parser` of src/json.rs: one position moved forward in place. */
module JsonParser {
  import opened Prelude
  import Json
  type JsonValue = Json.JsonValue

  datatype JsonError = JsonError(message: string, index: nat)

  /** `char::len_utf8`. */
  function Utf8Width(c: char): nat {
    if c <= '\U{7F}' then 1 else if c <= '\U{7FF}' then 2 else if c <= '\U{FFFF}' then 3 else 4
  }

  /** The length in bytes, which is what the positions of the source count. */
  function Utf8Length(s: string): nat { if s == "" then 0 else Utf8Length(s[..|s| - 1]) + Utf8Width(s[|s| - 1]) }

  /** The error of the source for a failure with `left` characters of the input still unread. */
  ghost predicate FailsAt(f: Json.Failure, e: JsonError, input: string) {
    f.left <= |input| && e == JsonError(f.message, Utf8Length(input[..|input| - f.left]))
  }

  /** A method's result `r`, with `rest` left to read, is what the function found in the input. */
  ghost predicate Tells<T>(p: Json.Parse<T>, r: Result<T, JsonError>, input: string, rest: string) {
    match p
    case Ok((v, t)) => r == Ok(v) && rest == t
    case Err(f) => r.Err? && FailsAt(f, r.error, input)
  }

  /** `consume_while`. */
  function SkipWhile(f: char -> bool, s: string): string {
    if s != "" && f(s[0]) then SkipWhile(f, s[1..]) else s
  }

  lemma {:induction false} SkipWhileIsSkipWs(s: string)
    ensures SkipWhile(Json.IsWhitespace, s) == Json.SkipWs(s)
  {
    if s != "" && Json.IsWhitespace(s[0]) {
      SkipWhileIsSkipWs(s[1..]);
    }
  }

  lemma {:induction false} SkipWhileIsSkipDigits(s: string)
    ensures SkipWhile(Json.IsDigit, s) == Json.SkipDigits(s)
  {
    if s != "" && Json.IsDigit(s[0]) {
      SkipWhileIsSkipDigits(s[1..]);
    }
  }

  /** `items` were read before the rest. */
  ghost function ItemsAfter(items: seq<JsonValue>, r: Json.Parse<seq<JsonValue>>): Json.Parse<seq<JsonValue>> {
    match r
    case Err(e) => Err(e)
    case Ok((vs, rest)) => Ok((items + vs, rest))
  }

  ghost function MembersAfter(fields: map<string, JsonValue>, r: Json.Parse<map<string, JsonValue>>)
    : Json.Parse<map<string, JsonValue>>
  {
    match r
    case Err(e) => Err(e)
    case Ok((more, rest)) => Ok((fields + more, rest))
  }

  lemma PrefixedLaws(a: string, b: string, r: Json.Parse<string>)
    ensures Json.Prefixed("", r) == r && Json.Prefixed(a, Json.Prefixed(b, r)) == Json.Prefixed(a + b, r)
    ensures r.Ok? && r.value.0 == "" ==> Json.Prefixed(a, r) == Ok((a, r.value.1))
    ensures r.Err? ==> Json.Prefixed(a, r) == r
  {
    if r.Ok? {
      assert a + (b + r.value.0) == (a + b) + r.value.0;
      assert "" + r.value.0 == r.value.0 && a + "" == a;
    }
  }

  lemma ItemsAfterNone(r: Json.Parse<seq<JsonValue>>)
    ensures ItemsAfter([], r) == r
  {
    if r.Ok? {
      assert [] + r.value.0 == r.value.0;
    }
  }

  lemma ItemsAfterEnd(a: seq<JsonValue>, rest: string, e: Json.Failure)
    ensures ItemsAfter(a, Ok(([], rest))) == Ok((a, rest)) && ItemsAfter(a, Err(e)) == Err(e)
  {
    assert a + [] == a;
  }

  lemma ItemsAfterTwo(a: seq<JsonValue>, b: seq<JsonValue>, r: Json.Parse<seq<JsonValue>>)
    ensures ItemsAfter(a, ItemsAfter(b, r)) == ItemsAfter(a + b, r)
  {
    if r.Ok? {
      assert a + (b + r.value.0) == (a + b) + r.value.0;
    }
  }

  lemma SoleItem(a: seq<JsonValue>, v: JsonValue, rest: string)
    ensures ItemsAfter(a, Ok(([v], rest))) == Ok((a + [v], rest))
  {
  }

  lemma SoleMember(a: map<string, JsonValue>, k: string, v: JsonValue, rest: string)
    ensures MembersAfter(a, Ok((map[k := v], rest))) == Ok((a[k := v], rest))
  {
    assert a + map[k := v] == a[k := v];
  }

  lemma MembersAfterLaws(a: map<string, JsonValue>, k: string, v: JsonValue, r: Json.Parse<map<string, JsonValue>>)
    ensures MembersAfter(map[], r) == r
    ensures MembersAfter(a, MembersAfter(map[k := v], r)) == MembersAfter(a[k := v], r)
    ensures r.Ok? && r.value.0 == map[] ==> MembersAfter(a, r) == Ok((a, r.value.1))
    ensures r.Err? ==> MembersAfter(a, r) == r
  {
    if r.Ok? {
      assert a + (map[k := v] + r.value.0) == a[k := v] + r.value.0;
      assert map[] + r.value.0 == r.value.0 && a + map[] == a;
    }
  }

  /** One turn of the array loop: what is between here and the next item or the end. */
  lemma ItemsTurn(s: string)
    ensures var t := Json.SkipWs(s);
            if Json.Next(t, {']'}) then Json.Items(s) == Ok(([], t[1..])) else
            match Json.Value(t)
            case Err(e) => Json.Items(s) == Err(e)
            case Ok((v, u)) =>
              var w := Json.SkipWs(u);
              if Json.Next(w, {']'}) then Json.Items(s) == Ok(([v], w[1..]))
              else if Json.Next(w, {','}) then Json.Items(s) == ItemsAfter([v], Json.Items(w[1..]))
              else Json.Items(s) == Err(Json.Failure("expected ',' or ']'", |w|))
  {
  }

  /** A key, its colon and its value. */
  ghost function MemberOf(s: string): Json.Parse<(string, JsonValue)> {
    match Json.KeyOf(s)
    case Err(e) => Err(e)
    case Ok((k, u)) =>
      match Json.Value(u)
      case Err(e) => Err(e)
      case Ok((v, rest)) => Ok(((k, v), rest))
  }

  lemma MembersTurn(s: string)
    ensures var t := Json.SkipWs(s);
            if Json.Next(t, {'}'}) then Json.Members(s) == Ok((map[], t[1..])) else
            match MemberOf(t)
            case Err(e) => Json.Members(s) == Err(e)
            case Ok((m, x)) =>
              var w := Json.SkipWs(x);
              if Json.Next(w, {'}'}) then Json.Members(s) == Ok((map[m.0 := m.1], w[1..]))
              else if Json.Next(w, {','}) then Json.Members(s) == MembersAfter(map[m.0 := m.1], Json.Members(w[1..]))
              else Json.Members(s) == Err(Json.Failure("expected ',' or '}'", |w|))
  {
  }

  /** Like `Tells`, for a part that only moves the position. */
  ghost predicate TellsRest(p: Result<string, Json.Failure>, r: Result<(), JsonError>, input: string, rest: string) {
    match p
    case Ok(t) => r == Ok(()) && rest == t
    case Err(f) => r.Err? && FailsAt(f, r.error, input)
  }

  ghost function ArrayOf(s: string): Json.Parse<JsonValue> {
    match Json.Items(s)
    case Err(e) => Err(e)
    case Ok((vs, rest)) => Ok((Json.Array(vs), rest))
  }

  ghost function ObjectOf(s: string): Json.Parse<JsonValue> {
    match Json.Members(s)
    case Err(e) => Err(e)
    case Ok((fields, rest)) => Ok((Json.Object(fields), rest))
  }

  lemma HexTurn(s: string, n: nat, value: nat)
    requires n > 0
    ensures s == "" ==> Json.Hex(s, n, value) == Err(Json.Failure("unterminated unicode escape", 0))
    ensures s != "" ==>
              Json.Hex(s, n, value) == var d := Json.HexDigit(s[0]);
                                       if d.None? then Err(Json.Failure("invalid unicode escape", |s| - 1))
                                       else Json.Hex(s[1..], n - 1, 16 * value + d.value)
  {
  }

  lemma HexDone(s: string, value: nat)
    ensures Json.Hex(s, 0, value) == Ok((value, s))
  {
  }

  ghost predicate Answers(p: Result<JsonValue, Json.Failure>, r: Result<JsonValue, JsonError>, input: string) {
    match p
    case Ok(v) => r == Ok(v)
    case Err(f) => r.Err? && FailsAt(f, r.error, input)
  }

  lemma Finish(input: string)
    ensures match Json.Value(input)
            case Err(e) => Json.ParseJson(input) == Err(e)
            case Ok((v, rest)) =>
              var t := Json.SkipWs(rest);
              Json.ParseJson(input) == if t == "" then Ok(v) else Err(Json.Failure("trailing characters", |t|))
  {
  }

  class Parser {
    const input: string
    var pos: nat

    ghost predicate Valid()
      reads this
    {
      pos <= |input|
    }

    /** What is left to read. */
    function Rest(): (s: string)
      reads this
      requires Valid()
      ensures |s| == |input| - pos
    {
      input[pos..]
    }

    constructor (input: string)
      ensures Valid() && this.input == input && Rest() == input
    {
      this.input := input;
      pos := 0;
    }

    /** An error here, at the byte position. */
    method Fail<T>(message: string) returns (r: Result<T, JsonError>)
      requires Valid()
      ensures r.Err? && FailsAt(Json.Failure(message, |input| - pos), r.error, input)
    {
      r := Err(JsonError(message, Utf8Length(input[..pos])));
    }

    function PeekChar(): Option<char>
      reads this
    {
      if pos < |input| then Some(input[pos]) else None
    }

    method ConsumeChar() returns (c: Option<char>)
      requires Valid()
      modifies this
      ensures Valid() && c == old(PeekChar())
      ensures Rest() == if old(Rest()) == "" then "" else old(Rest())[1..]
    {
      c := PeekChar();
      if c.Some? {
        pos := pos + 1;
      }
    }

    method ConsumeWhile(f: char -> bool)
      requires Valid()
      modifies this
      ensures Valid() && old(pos) <= pos && Rest() == SkipWhile(f, old(Rest()))
    {
      while PeekChar().Some? && f(PeekChar().value)
        invariant Valid() && old(pos) <= pos && SkipWhile(f, Rest()) == SkipWhile(f, old(Rest()))
        decreases |input| - pos
      {
        var _ := ConsumeChar();
      }
    }

    method SkipWs()
      requires Valid()
      modifies this
      ensures Valid() && old(pos) <= pos && Rest() == Json.SkipWs(old(Rest()))
    {
      SkipWhileIsSkipWs(Rest());
      ConsumeWhile(Json.IsWhitespace);
    }

    method ExpectLiteral(lit: string, v: JsonValue) returns (r: Result<JsonValue, JsonError>)
      requires Valid() && lit != ""
      modifies this
      ensures Valid() && old(pos) <= pos && Tells(Json.Literal(old(Rest()), lit, v), r, input, Rest())
    {
      if lit <= input[pos..] {
        pos := pos + |lit|;
        r := Ok(v);
      } else {
        r := Fail("invalid literal");
      }
    }

    /** One value and nothing after it but whitespace. */
    method ParseText() returns (r: Result<JsonValue, JsonError>)
      requires Valid()
      modifies this
      ensures Answers(Json.ParseJson(old(Rest())), r, input)
    {
      hide Json.Value, Json.SkipWs, Json.ParseJson;
      Finish(Rest());
      r := ParseValue();
      if r.Ok? {
        SkipWs();
        if pos != |input| {
          r := Fail("trailing characters");
        }
      }
    }

    // ---- Strings ----

    method ParseHex4() returns (r: Result<nat, JsonError>)
      requires Valid()
      modifies this
      ensures Valid() && old(pos) <= pos && Tells(Json.Hex(old(Rest()), 4, 0), r, input, Rest())
    {
      hide Json.HexDigit, Json.Hex;
      var value := 0;
      for i := 0 to 4
        invariant Valid() && old(pos) <= pos && Json.Hex(Rest(), 4 - i, value) == Json.Hex(old(Rest()), 4, 0)
      {
        HexTurn(Rest(), 4 - i, value);
        var c := ConsumeChar();
        if c.None? {
          r := Fail("unterminated unicode escape");
          return;
        }
        var d := Json.HexDigit(c.value);
        if d.None? {
          r := Fail("invalid unicode escape");
          return;
        }
        value := 16 * value + d.value;
      }
      HexDone(Rest(), value);
      r := Ok(value);
    }

    method ParseEscape() returns (r: Result<char, JsonError>)
      requires Valid()
      modifies this
      ensures Valid() && old(pos) <= pos && Tells(Json.Escape(old(Rest())), r, input, Rest())
    {
      hide Json.Hex, Json.Unescaped;
      var esc := ConsumeChar();
      if esc.None? {
        r := Fail("unterminated escape");
      } else if esc.value == 'u' {
        ghost var t := Rest();
        var cp := ParseHex4();
        if cp.Err? {
          return Err(cp.error);
        }
        Json.HexBound(t, 4, 0);
        if Json.IsSurrogate(cp.value) {
          r := Fail("invalid unicode escape");
        } else {
          r := Ok(cp.value as char);
        }
      } else if Json.Unescaped(esc.value).Some? {
        r := Ok(Json.Unescaped(esc.value).value);
      } else {
        r := Fail("invalid escape");
      }
    }

    method ParseString() returns (r: Result<string, JsonError>)
      requires Valid()
      modifies this
      ensures Valid() && old(pos) <= pos && Tells(Json.Quoted(old(Rest())), r, input, Rest())
    {
      hide Json.Escape, Json.Prefixed;
      var open := ConsumeChar();
      if open != Some('"') {
        r := Fail("expected string");
        return;
      }
      ghost var start := Rest();
      var out := "";
      PrefixedLaws("", "", Json.Chars(start));
      while PeekChar().Some?
        invariant Valid() && old(pos) <= pos && Json.Chars(start) == Json.Prefixed(out, Json.Chars(Rest()))
        decreases |input| - pos
      {
        ghost var here := Json.Chars(Rest());
        PrefixedLaws(out, "", here);
        var ch := ConsumeChar();
        if ch.value == '"' {
          return Ok(out);
        } else if ch.value == '\\' {
          var c := ParseEscape();
          if c.Err? {
            return Err(c.error);
          }
          PrefixedLaws(out, [c.value], Json.Chars(Rest()));
          out := out + [c.value];
        } else if Json.IsControl(ch.value) {
          r := Fail("control character in string");
          return;
        } else {
          PrefixedLaws(out, [ch.value], Json.Chars(Rest()));
          out := out + [ch.value];
        }
      }
      PrefixedLaws(out, "", Json.Chars(Rest()));
      r := Fail("unterminated string");
    }

    // ---- Numbers ----

    method ParseDigits() returns (r: Result<(), JsonError>)
      requires Valid()
      modifies this
      ensures Valid() && old(pos) <= pos
      ensures TellsRest(Json.Digits(old(Rest())), r, input, Rest())
    {
      if PeekChar().None? || !Json.IsDigit(PeekChar().value) {
        r := Fail("invalid number");
        return;
      }
      SkipWhileIsSkipDigits(Rest());
      SkipWhileIsSkipDigits(Rest()[1..]);
      ConsumeWhile(Json.IsDigit);
      r := Ok(());
    }

    method ParseInteger() returns (r: Result<(), JsonError>)
      requires Valid()
      modifies this
      ensures Valid() && old(pos) <= pos && TellsRest(Json.Integer(old(Rest())), r, input, Rest())
    {
      hide Json.Digits;
      if PeekChar() == Some('-') {
        var _ := ConsumeChar();
      }
      if PeekChar() == Some('0') {
        var _ := ConsumeChar();
        r := Ok(());
      } else {
        r := ParseDigits();
      }
    }

    method ParseFraction() returns (r: Result<(), JsonError>)
      requires Valid()
      modifies this
      ensures Valid() && old(pos) <= pos && TellsRest(Json.Fraction(old(Rest())), r, input, Rest())
    {
      hide Json.Digits;
      r := Ok(());
      if PeekChar() == Some('.') {
        var _ := ConsumeChar();
        r := ParseDigits();
      }
    }

    method ParseExponent() returns (r: Result<(), JsonError>)
      requires Valid()
      modifies this
      ensures Valid() && old(pos) <= pos && TellsRest(Json.Exponent(old(Rest())), r, input, Rest())
    {
      hide Json.Digits;
      r := Ok(());
      if PeekChar() == Some('e') || PeekChar() == Some('E') {
        ghost var s := Rest();
        var _ := ConsumeChar();
        if PeekChar() == Some('+') || PeekChar() == Some('-') {
          var _ := ConsumeChar();
          assert Rest() == s[2..];
        }
        r := ParseDigits();
      }
    }

    method ParseNumber() returns (r: Result<JsonValue, JsonError>)
      requires Valid()
      modifies this
      ensures Valid() && old(pos) <= pos && Tells(Json.NumberOf(old(Rest())), r, input, Rest())
    {
      hide Json.Integer, Json.Fraction, Json.Exponent;
      var start := pos;
      ghost var s := Rest();
      var part := ParseInteger();
      if part.Ok? {
        part := ParseFraction();
      }
      if part.Ok? {
        part := ParseExponent();
      }
      if part.Err? {
        return Err(part.error);
      }
      assert input[start..pos] == s[..|s| - |Rest()|];
      r := Ok(Json.Number(input[start..pos]));
    }

    // ---- Values ----

    method ParseValue() returns (r: Result<JsonValue, JsonError>)
      requires Valid()
      modifies this
      ensures Valid() && old(pos) <= pos && Tells(Json.Value(old(Rest())), r, input, Rest())
      decreases |input| - pos, 1
    {
      hide Json.Quoted, Json.NumberOf, Json.Literal, Json.Items, Json.Members, Json.SkipWs;
      SkipWs();
      var c := PeekChar();
      if c.None? {
        r := Fail("unexpected end of input");
      } else if c.value == 'n' {
        r := ExpectLiteral("null", Json.Null);
      } else if c.value == 't' {
        r := ExpectLiteral("true", Json.Bool(true));
      } else if c.value == 'f' {
        r := ExpectLiteral("false", Json.Bool(false));
      } else if c.value == '"' {
        var s := ParseString();
        r := if s.Ok? then Ok(Json.String(s.value)) else Err(s.error);
      } else if c.value == '[' {
        r := ParseArray();
      } else if c.value == '{' {
        r := ParseObject();
      } else if c.value == '-' || Json.IsDigit(c.value) {
        r := ParseNumber();
      } else {
        r := Fail("unexpected character");
      }
    }

    method ParseArray() returns (r: Result<JsonValue, JsonError>)
      requires Valid() && PeekChar() == Some('[')
      modifies this
      ensures Valid() && old(pos) <= pos && Tells(ArrayOf(old(Rest())[1..]), r, input, Rest())
      decreases |input| - pos, 0
    {
      hide Json.Value, Json.SkipWs, Json.Items, ItemsAfter;
      var _ := ConsumeChar();
      ghost var start := Rest();
      var items: seq<JsonValue> := [];
      ItemsAfterNone(Json.Items(start));
      while true
        invariant Valid() && old(pos) < pos && Json.Items(start) == ItemsAfter(items, Json.Items(Rest()))
        decreases |input| - pos
      {
        ItemsTurn(Rest());
        ghost var here := Json.Items(Rest());
        if here.Err? {
          ItemsAfterEnd(items, "", here.error);
        }
        SkipWs();
        if PeekChar() == Some(']') {
          var _ := ConsumeChar();
          ItemsAfterEnd(items, Rest(), Json.Failure("", 0));
          return Ok(Json.Array(items));
        }
        var v := ParseValue();
        if v.Err? {
          return Err(v.error);
        }
        SkipWs();
        if PeekChar() == Some(']') {
          var _ := ConsumeChar();
          SoleItem(items, v.value, Rest());
          return Ok(Json.Array(items + [v.value]));
        }
        if PeekChar() != Some(',') {
          r := Fail("expected ',' or ']'");
          return;
        }
        var _ := ConsumeChar();
        ItemsAfterTwo(items, [v.value], Json.Items(Rest()));
        items := items + [v.value];
      }
    }

    method ParseKey() returns (r: Result<string, JsonError>)
      requires Valid()
      modifies this
      ensures Valid() && old(pos) <= pos && Tells(Json.KeyOf(old(Rest())), r, input, Rest())
    {
      hide Json.Quoted, Json.SkipWs;
      r := ParseString();
      if r.Ok? {
        SkipWs();
        var c := ConsumeChar();
        if c != Some(':') {
          r := Fail("expected ':'");
        }
      }
    }

    method ParseMember() returns (r: Result<(string, JsonValue), JsonError>)
      requires Valid()
      modifies this
      ensures Valid() && old(pos) <= pos && Tells(MemberOf(old(Rest())), r, input, Rest())
      decreases |input| - pos, 2
    {
      hide Json.KeyOf, Json.Value;
      var key := ParseKey();
      if key.Err? {
        return Err(key.error);
      }
      var v := ParseValue();
      r := if v.Ok? then Ok((key.value, v.value)) else Err(v.error);
    }

    method ParseObject() returns (r: Result<JsonValue, JsonError>)
      requires Valid() && PeekChar() == Some('{')
      modifies this
      ensures Valid() && old(pos) <= pos && Tells(ObjectOf(old(Rest())[1..]), r, input, Rest())
      decreases |input| - pos, 0
    {
      hide MemberOf, Json.SkipWs, Json.Members, MembersAfter;
      var _ := ConsumeChar();
      ghost var start := Rest();
      var fields: map<string, JsonValue> := map[];
      MembersAfterLaws(map[], "", Json.Null, Json.Members(start));
      while true
        invariant Valid() && old(pos) < pos && Json.Members(start) == MembersAfter(fields, Json.Members(Rest()))
        decreases |input| - pos
      {
        MembersTurn(Rest());
        MembersAfterLaws(fields, "", Json.Null, Json.Members(Rest()));
        SkipWs();
        if PeekChar() == Some('}') {
          var _ := ConsumeChar();
          return Ok(Json.Object(fields));
        }
        var m := ParseMember();
        if m.Err? {
          return Err(m.error);
        }
        SkipWs();
        if PeekChar() == Some('}') {
          var _ := ConsumeChar();
          SoleMember(fields, m.value.0, m.value.1, Rest());
          return Ok(Json.Object(fields[m.value.0 := m.value.1]));
        }
        if PeekChar() != Some(',') {
          r := Fail("expected ',' or '}'");
          return;
        }
        var _ := ConsumeChar();
        MembersAfterLaws(fields, m.value.0, m.value.1, Json.Members(Rest()));
        fields := fields[m.value.0 := m.value.1];
      }
    }
  }

  /** The parser in place answers what the functions do, so their theorems are its own. */
  method ParseJson(input: string) returns (r: Result<JsonValue, JsonError>)
    ensures Answers(Json.ParseJson(input), r, input)
  {
    hide Answers, Json.ParseJson;
    var parser := new Parser(input);
    r := parser.ParseText();
  }
}
