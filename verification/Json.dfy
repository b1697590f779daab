/** The recursive-descent parser of src/json.rs, as functions on the characters not yet consumed. */
module Json {
  import opened Prelude

  /** Numbers keep their lexeme. */
  datatype JsonValue =
    | Null
    | Bool(b: bool)
    | Number(lexeme: string)
    | String(s: string)
    | Array(items: seq<JsonValue>)
    | Object(fields: map<string, JsonValue>)

  /** `left` characters were still unread. */
  datatype Failure = Failure(message: string, left: nat)

  /** The result and the characters after it. */
  type Parse<T> = Result<(T, string), Failure>

  // ---- Characters ----

  /** `char::is_whitespace`: Unicode White_Space. */
  predicate IsWhitespace(c: char) {
    || '\t' <= c <= '\r' || c == ' ' || c == '\U{85}' || c == '\U{A0}' || c == '\U{1680}'
      || '\U{2000}' <= c <= '\U{200A}'
    || c == '\U{2028}' || c == '\U{2029}' || c == '\U{202F}' || c == '\U{205F}' || c == '\U{3000}'
  }

  /** `char::is_control`: Unicode Cc. */
  predicate IsControl(c: char) { c <= '\U{1F}' || '\U{7F}' <= c <= '\U{9F}' }

  predicate IsDigit(c: char) { '0' <= c <= '9' }

  function HexDigit(c: char): Option<nat> {
    if '0' <= c <= '9' then Some((c - '0') as nat)
    else if 'a' <= c <= 'f' then Some((c - 'a') as nat + 10)
    else if 'A' <= c <= 'F' then Some((c - 'A') as nat + 10)
    else None
  }

  function Unescaped(c: char): Option<char> {
    match c
    case '"' => Some('"')
    case '\\' => Some('\\')
    case '/' => Some('/')
    case 'b' => Some('\U{08}')
    case 'f' => Some('\U{0C}')
    case 'n' => Some('\n')
    case 'r' => Some('\r')
    case 't' => Some('\t')
    case _ => None
  }

  predicate IsSurrogate(n: nat) { 0xD800 <= n <= 0xDFFF }

  /** The next character is one of `cs`. */
  predicate Next(s: string, cs: set<char>) { s != "" && s[0] in cs }

  predicate NextDigit(s: string) { s != "" && IsDigit(s[0]) }

  function SkipWs(s: string): (r: string)
    ensures |r| <= |s|
  {
    if s != "" && IsWhitespace(s[0]) then SkipWs(s[1..]) else s
  }

  function SkipDigits(s: string): (r: string)
    ensures |r| <= |s|
  {
    if NextDigit(s) then SkipDigits(s[1..]) else s
  }

  // ---- Strings ----

  function Hex(s: string, n: nat, value: nat): (r: Parse<nat>)
    ensures r.Ok? ==> |r.value.1| <= |s|
    decreases n
  {
    if n == 0 then Ok((value, s))
    else if s == "" then Err(Failure("unterminated unicode escape", 0))
    else
      var d := HexDigit(s[0]);
      if d.None? then Err(Failure("invalid unicode escape", |s| - 1)) else Hex(s[1..], n - 1, 16 * value + d.value)
  }

  /** `out` was read before the rest. */
  function Prefixed(out: string, r: Parse<string>): Parse<string> {
    match r
    case Err(e) => Err(e)
    case Ok((t, rest)) => Ok((out + t, rest))
  }

  /** What `n` more digits can be appended to. */
  function Room(n: nat): nat
    requires n <= 4
  {
    if n == 4 then 1 else if n == 3 then 0x10 else if n == 2 then 0x100 else if n == 1 then 0x1000 else 0x10000
  }

  lemma {:induction false} HexBound(s: string, n: nat, value: nat)
    requires n <= 4 && value < Room(n)
    ensures var r := Hex(s, n, value); r.Ok? ==> r.value.0 < 0x10000
    decreases n
  {
    if n > 0 && s != "" && HexDigit(s[0]).Some? {
      HexBound(s[1..], n - 1, 16 * value + HexDigit(s[0]).value);
    }
  }

  /** Four hexadecimal digits that name a character; surrogates do not. */
  function UnicodeEscape(s: string): (r: Parse<char>)
    ensures r.Ok? ==> |r.value.1| <= |s|
  {
    match Hex(s, 4, 0)
    case Err(e) => Err(e)
    case Ok((n, rest)) =>
      HexBound(s, 4, 0);
      if IsSurrogate(n) then Err(Failure("invalid unicode escape", |rest|)) else Ok((n as char, rest))
  }

  /** One escape, after its backslash. */
  function Escape(s: string): (r: Parse<char>)
    ensures r.Ok? ==> |r.value.1| < |s|
  {
    if s == "" then Err(Failure("unterminated escape", 0))
    else if s[0] == 'u' then UnicodeEscape(s[1..])
    else if Unescaped(s[0]).Some? then Ok((Unescaped(s[0]).value, s[1..]))
    else Err(Failure("invalid escape", |s| - 1))
  }

  /** The inside of a string and its closing quote. */
  function Chars(s: string): (r: Parse<string>)
    ensures r.Ok? ==> |r.value.1| < |s|
    decreases |s|
  {
    if s == "" then Err(Failure("unterminated string", 0))
    else if s[0] == '"' then Ok(("", s[1..]))
    else if s[0] == '\\' then
      match Escape(s[1..])
      case Err(e) => Err(e)
      case Ok((c, rest)) => Prefixed([c], Chars(rest))
    else if IsControl(s[0]) then Err(Failure("control character in string", |s| - 1))
    else Prefixed([s[0]], Chars(s[1..]))
  }

  function Quoted(s: string): (r: Parse<string>)
    ensures r.Ok? ==> |r.value.1| < |s|
  {
    if s == "" then Err(Failure("expected string", 0))
    else if s[0] != '"' then Err(Failure("expected string", |s| - 1))
    else Chars(s[1..])
  }

  // ---- Numbers ----

  /** Digits, at least one. */
  function Digits(s: string): (r: Result<string, Failure>)
    ensures r.Ok? ==> |r.value| < |s|
  {
    if NextDigit(s) then Ok(SkipDigits(s[1..])) else Err(Failure("invalid number", |s|))
  }

  function Integer(s: string): (r: Result<string, Failure>)
    ensures r.Ok? ==> |r.value| < |s|
  {
    var t := if Next(s, {'-'}) then s[1..] else s;
    if Next(t, {'0'}) then Ok(t[1..]) else Digits(t)
  }

  function Fraction(s: string): (r: Result<string, Failure>)
    ensures r.Ok? ==> |r.value| <= |s|
  {
    if Next(s, {'.'}) then Digits(s[1..]) else Ok(s)
  }

  function Exponent(s: string): (r: Result<string, Failure>)
    ensures r.Ok? ==> |r.value| <= |s|
  {
    if !Next(s, {'e', 'E'}) then Ok(s)
    else if Next(s[1..], {'+', '-'}) then Digits(s[2..])
    else Digits(s[1..])
  }

  function NumberTail(s: string): (r: Result<string, Failure>)
    ensures r.Ok? ==> |r.value| < |s|
  {
    match Integer(s)
    case Err(e) => Err(e)
    case Ok(t) =>
      match Fraction(t)
      case Err(e) => Err(e)
      case Ok(u) => Exponent(u)
  }

  function NumberOf(s: string): (r: Parse<JsonValue>)
    ensures r.Ok? ==> |r.value.1| < |s|
  {
    match NumberTail(s)
    case Err(e) => Err(e)
    case Ok(rest) => Ok((Number(s[..|s| - |rest|]), rest))
  }

  // ---- Values ----

  function Literal(s: string, lit: string, v: JsonValue): (r: Parse<JsonValue>)
    requires lit != ""
    ensures r.Ok? ==> |r.value.1| < |s|
  {
    if lit <= s then Ok((v, s[|lit|..])) else Err(Failure("invalid literal", |s|))
  }

  function Value(s: string): (r: Parse<JsonValue>)
    ensures r.Ok? ==> |r.value.1| < |s|
    decreases |s|, 0
  {
    var t := SkipWs(s);
    if t == "" then Err(Failure("unexpected end of input", 0))
    else if t[0] == 'n' then Literal(t, "null", Null)
    else if t[0] == 't' then Literal(t, "true", Bool(true))
    else if t[0] == 'f' then Literal(t, "false", Bool(false))
    else if t[0] == '"' then
      match Quoted(t)
      case Err(e) => Err(e)
      case Ok((text, rest)) => Ok((String(text), rest))
    else if t[0] == '[' then
      match Items(t[1..])
      case Err(e) => Err(e)
      case Ok((vs, rest)) => Ok((Array(vs), rest))
    else if t[0] == '{' then
      match Members(t[1..])
      case Err(e) => Err(e)
      case Ok((fields, rest)) => Ok((Object(fields), rest))
    else if t[0] == '-' || IsDigit(t[0]) then NumberOf(t)
    else Err(Failure("unexpected character", |t|))
  }

  /** The inside of an array, to its bracket. */
  function Items(s: string): (r: Parse<seq<JsonValue>>)
    ensures r.Ok? ==> |r.value.1| < |s|
    decreases |s|, 1
  {
    var t := SkipWs(s);
    if Next(t, {']'}) then Ok(([], t[1..])) else
    match Value(t)
    case Err(e) => Err(e)
    case Ok((v, u)) =>
      var w := SkipWs(u);
      if Next(w, {']'}) then Ok(([v], w[1..]))
      else if !Next(w, {','}) then Err(Failure("expected ',' or ']'", |w|))
      else
        match Items(w[1..])
        case Err(e) => Err(e)
        case Ok((vs, rest)) => Ok(([v] + vs, rest))
  }

  /** A key and its colon. */
  function KeyOf(s: string): (r: Parse<string>)
    ensures r.Ok? ==> |r.value.1| < |s|
  {
    match Quoted(s)
    case Err(e) => Err(e)
    case Ok((key, u)) =>
      var w := SkipWs(u);
      if w == "" then Err(Failure("expected ':'", 0))
      else if w[0] != ':' then Err(Failure("expected ':'", |w| - 1))
      else Ok((key, w[1..]))
  }

  /** The inside of an object, to its brace; a later member replaces an earlier one of the same key. */
  function Members(s: string): (r: Parse<map<string, JsonValue>>)
    ensures r.Ok? ==> |r.value.1| < |s|
    decreases |s|, 1
  {
    var t := SkipWs(s);
    if Next(t, {'}'}) then Ok((map[], t[1..])) else
    match KeyOf(t)
    case Err(e) => Err(e)
    case Ok((key, u)) =>
      match Value(u)
      case Err(e) => Err(e)
      case Ok((v, x)) =>
        var w := SkipWs(x);
        if Next(w, {'}'}) then Ok((map[key := v], w[1..]))
        else if !Next(w, {','}) then Err(Failure("expected ',' or '}'", |w|))
        else
          match Members(w[1..])
          case Err(e) => Err(e)
          case Ok((fields, rest)) => Ok((map[key := v] + fields, rest))
  }

  /** `parse_json`. */
  function ParseJson(input: string): Result<JsonValue, Failure> {
    match Value(input)
    case Err(e) => Err(e)
    case Ok((v, rest)) =>
      var t := SkipWs(rest);
      if t == "" then Ok(v) else Err(Failure("trailing characters", |t|))
  }
}
