/** JSON values and the two conversions `localApi` wraps around the
    key-value store: `JSON.stringify` (value to text) and `JSON.parse`
    (text to value, or an error). Numbers are exact integers here, with no
    rounding to a double beyond 2^53. */
module Json {
  import opened Wrappers
  import opened Numerals

  datatype Json =
    | JNull
    | JBool(b: bool)
    | JNumber(n: int)
    | JString(s: string)
    | JArray(items: seq<Json>)
    | JObject(members: seq<Member>)

  /** One `"key": value` pair of an object, in insertion order. */
  datatype Member = Member(key: string, value: Json)

  // ---------------------------------------------------------------------
  // JSON.stringify, without indentation

  /** How `JSON.stringify` writes one character inside a string literal:
      quote and backslash are escaped, the five control characters with
      a short escape use it, the other control characters become a
      `\u00xx` escape with lower-case hex digits, and the rest stay. */
  function EscapeChar(c: char): (e: string)
    ensures |e| >= 1
  {
    var n := c as int;
    if c == '"' then ['\\', '"']
    else if c == '\\' then ['\\', '\\']
    else if n == 8 then ['\\', 'b']
    else if n == 9 then ['\\', 't']
    else if n == 10 then ['\\', 'n']
    else if n == 12 then ['\\', 'f']
    else if n == 13 then ['\\', 'r']
    else if n < 32 then ['\\', 'u', '0', '0', HexDigit(n / 16), HexDigit(n % 16)]
    else [c]
  }

  function Escape(s: string): string {
    if s == [] then [] else EscapeChar(s[0]) + Escape(s[1..])
  }

  function Quote(s: string): string {
    "\"" + Escape(s) + "\""
  }

  function Stringify(v: Json): string
    decreases v
  {
    match v
    case JNull => "null"
    case JBool(b) => if b then "true" else "false"
    case JNumber(n) => IntToString(n)
    case JString(s) => Quote(s)
    case JArray(items) => "[" + StringifyItems(items) + "]"
    case JObject(members) => "{" + StringifyMembers(members) + "}"
  }

  function StringifyItems(items: seq<Json>): string
    decreases items
  {
    if items == [] then ""
    else if |items| == 1 then Stringify(items[0])
    else Stringify(items[0]) + "," + StringifyItems(items[1..])
  }

  function StringifyMember(m: Member): string
    decreases m
  {
    Quote(m.key) + ":" + Stringify(m.value)
  }

  function StringifyMembers(members: seq<Member>): string
    decreases members
  {
    if members == [] then ""
    else if |members| == 1 then StringifyMember(members[0])
    else StringifyMember(members[0]) + "," + StringifyMembers(members[1..])
  }

  // ---------------------------------------------------------------------
  // JSON.parse

  /** A value read from the front of a text, and the text left after it. */
  datatype Parsed<T> = Parsed(value: T, rest: string)

  predicate IsWhitespace(c: char) {
    c == ' ' || c == '\t' || c == '\n' || c == '\r'
  }

  /** Drops the leading JSON whitespace, and only that. */
  function SkipWhitespace(s: string): (t: string)
    ensures |t| <= |s|
    ensures t != [] ==> !IsWhitespace(t[0])
    decreases |s|
  {
    if s != [] && IsWhitespace(s[0]) then SkipWhitespace(s[1..]) else s
  }

  /** `JSON.parse(text)`: one value, surrounded by nothing but whitespace;
      None where `JSON.parse` would throw a SyntaxError. */
  function Parse(text: string): Option<Json> {
    match ParseValue(text)
    case None => None
    case Some(p) => if SkipWhitespace(p.rest) == [] then Some(p.value) else None
  }

  function ParseValue(s: string): (r: Option<Parsed<Json>>)
    ensures r.Some? ==> |r.value.rest| < |s|
    decreases |s|, 1
  {
    var t := SkipWhitespace(s);
    if t == [] then None
    else if t[0] == '-' || IsDigit(t[0]) then ParseNumber(t)
    else if t[0] == 'n' then ParseKeyword(t, "null", JNull)
    else if t[0] == 't' then ParseKeyword(t, "true", JBool(true))
    else if t[0] == 'f' then ParseKeyword(t, "false", JBool(false))
    else if t[0] == '"' then
      match ParseStringBody(t[1..])
      case None => None
      case Some(p) => Some(Parsed(JString(p.value), p.rest))
    else if t[0] == '[' then ParseArrayTail(t[1..])
    else if t[0] == '{' then ParseObjectTail(t[1..])
    else None
  }

  function ParseKeyword(t: string, word: string, v: Json): (r: Option<Parsed<Json>>)
    requires word != []
    ensures r.Some? ==> |r.value.rest| < |t|
  {
    if |word| <= |t| && t[..|word|] == word then Some(Parsed(v, t[|word|..])) else None
  }

  /** An optional minus sign and a magnitude. */
  function ParseNumber(t: string): (r: Option<Parsed<Json>>)
    ensures r.Some? ==> |r.value.rest| < |t|
  {
    if t != [] && t[0] == '-' then
      match ParseMagnitude(t[1..])
      case None => None
      case Some(p) => var m: int := p.value; Some(Parsed(JNumber(-m), p.rest))
    else
      match ParseMagnitude(t)
      case None => None
      case Some(p) => Some(Parsed(JNumber(p.value), p.rest))
  }

  /** A run of digits with no superfluous leading zero. */
  function ParseMagnitude(u: string): (r: Option<Parsed<nat>>)
    ensures r.Some? ==> |r.value.rest| < |u|
  {
    var k := DigitRun(u);
    if k == 0 || (k > 1 && u[0] == '0') then None
    else Some(Parsed(DigitsValue(u[..k]), u[k..]))
  }

  /** The body of a string literal, after its opening quote, up to and
      including the closing quote. Raw control characters are rejected. */
  function ParseStringBody(s: string): (r: Option<Parsed<string>>)
    ensures r.Some? ==> |r.value.rest| < |s|
    decreases |s|
  {
    if s == [] then None
    else if s[0] == '"' then Some(Parsed([], s[1..]))
    else if s[0] == '\\' then
      match Unescape(s[1..])
      case None => None
      case Some(e) =>
        match ParseStringBody(e.rest)
        case None => None
        case Some(p) => Some(Parsed([e.value] + p.value, p.rest))
    else if (s[0] as int) < 32 then None
    else
      match ParseStringBody(s[1..])
      case None => None
      case Some(p) => Some(Parsed([s[0]] + p.value, p.rest))
  }

  /** The character an escape sequence stands for, read after its
      backslash. A `\u` escape naming a surrogate half is rejected. */
  function Unescape(s: string): (r: Option<Parsed<char>>)
    ensures r.Some? ==> |r.value.rest| < |s|
  {
    if s == [] then None
    else if s[0] == '"' then Some(Parsed('"', s[1..]))
    else if s[0] == '\\' then Some(Parsed('\\', s[1..]))
    else if s[0] == '/' then Some(Parsed('/', s[1..]))
    else if s[0] == 'b' then Some(Parsed(8 as char, s[1..]))
    else if s[0] == 't' then Some(Parsed('\t', s[1..]))
    else if s[0] == 'n' then Some(Parsed('\n', s[1..]))
    else if s[0] == 'f' then Some(Parsed(12 as char, s[1..]))
    else if s[0] == 'r' then Some(Parsed('\r', s[1..]))
    else if s[0] == 'u' && |s| >= 5
            && IsHexDigit(s[1]) && IsHexDigit(s[2]) && IsHexDigit(s[3]) && IsHexDigit(s[4]) then
      var code := HexValue(s[1]) * 4096 + HexValue(s[2]) * 256 + HexValue(s[3]) * 16 + HexValue(s[4]);
      if 0xD800 <= code < 0xE000 then None else Some(Parsed(code as char, s[5..]))
    else None
  }

  /** What follows `[`: whitespace and `]`, or elements. */
  function ParseArrayTail(s: string): (r: Option<Parsed<Json>>)
    ensures r.Some? ==> |r.value.rest| < |s|
    decreases |s|, 3
  {
    var u := SkipWhitespace(s);
    if u != [] && u[0] == ']' then Some(Parsed(JArray([]), u[1..]))
    else
      match ParseElements(u)
      case None => None
      case Some(p) => Some(Parsed(JArray(p.value), p.rest))
  }

  /** One or more comma-separated values, then the closing `]`. */
  function ParseElements(s: string): (r: Option<Parsed<seq<Json>>>)
    ensures r.Some? ==> |r.value.rest| < |s|
    decreases |s|, 2
  {
    match ParseValue(s)
    case None => None
    case Some(first) =>
      var u := SkipWhitespace(first.rest);
      if u != [] && u[0] == ',' then
        match ParseElements(u[1..])
        case None => None
        case Some(more) => Some(Parsed([first.value] + more.value, more.rest))
      else if u != [] && u[0] == ']' then Some(Parsed([first.value], u[1..]))
      else None
  }

  /** What follows `{`: whitespace and `}`, or members. */
  function ParseObjectTail(s: string): (r: Option<Parsed<Json>>)
    ensures r.Some? ==> |r.value.rest| < |s|
    decreases |s|, 4
  {
    var u := SkipWhitespace(s);
    if u != [] && u[0] == '}' then Some(Parsed(JObject([]), u[1..]))
    else
      match ParseMembers(u)
      case None => None
      case Some(p) => Some(Parsed(JObject(p.value), p.rest))
  }

  /** One or more comma-separated members, then the closing `}`. */
  function ParseMembers(s: string): (r: Option<Parsed<seq<Member>>>)
    ensures r.Some? ==> |r.value.rest| < |s|
    decreases |s|, 3
  {
    match ParseMember(s)
    case None => None
    case Some(first) =>
      var u := SkipWhitespace(first.rest);
      if u != [] && u[0] == ',' then
        match ParseMembers(u[1..])
        case None => None
        case Some(more) => Some(Parsed([first.value] + more.value, more.rest))
      else if u != [] && u[0] == '}' then Some(Parsed([first.value], u[1..]))
      else None
  }

  /** One `"key": value` pair. */
  function ParseMember(s: string): (r: Option<Parsed<Member>>)
    ensures r.Some? ==> |r.value.rest| < |s|
    decreases |s|, 2
  {
    var u := SkipWhitespace(s);
    if u == [] || u[0] != '"' then None
    else
      match ParseStringBody(u[1..])
      case None => None
      case Some(key) =>
        var colon := SkipWhitespace(key.rest);
        if colon == [] || colon[0] != ':' then None
        else
          match ParseValue(colon[1..])
          case None => None
          case Some(value) => Some(Parsed(Member(key.value, value.value), value.rest))
  }

  // ---------------------------------------------------------------------
  // Parsing what was stringified gives the value back

  /** The characters a value's text may begin with. */
  predicate StartsValue(c: char) {
    c == 'n' || c == 't' || c == 'f' || c == '"' || c == '[' || c == '{' || c == '-' || IsDigit(c)
  }

  /** Text that may follow a value without running into it: a digit would
      extend a number. */
  predicate Delimited(rest: string) {
    rest == [] || !IsDigit(rest[0])
  }

  lemma StringifyStarts(v: Json)
    ensures Stringify(v) != [] && StartsValue(Stringify(v)[0])
  {
  }

  // One step of the parser at a time

  lemma SkipNothing(t: string)
    requires t != [] && !IsWhitespace(t[0])
    ensures SkipWhitespace(t) == t
  {
  }

  lemma ParseValueOfKeyword(word: string, v: Json, rest: string)
    requires word == "null" || word == "true" || word == "false"
    requires v == if word == "null" then JNull else JBool(word == "true")
    ensures ParseValue(word + rest) == Some(Parsed(v, rest))
  {
    var t := word + rest;
    assert t[0] == word[0];
    SkipNothing(t);
    assert t[..|word|] == word && t[|word|..] == rest;
  }

  lemma ParseValueOfNumber(t: string)
    requires t != [] && (t[0] == '-' || IsDigit(t[0]))
    ensures ParseValue(t) == ParseNumber(t)
  {
    SkipNothing(t);
  }

  lemma ParseValueOfString(body: string, x: string, rest: string)
    requires ParseStringBody(body) == Some(Parsed(x, rest))
    ensures ParseValue("\"" + body) == Some(Parsed(JString(x), rest))
  {
    var t := "\"" + body;
    assert t[0] == '"' && t[1..] == body;
    SkipNothing(t);
  }

  lemma ParseValueOfArray(body: string)
    ensures ParseValue("[" + body) == ParseArrayTail(body)
  {
    var t := "[" + body;
    assert t[0] == '[' && t[1..] == body;
    SkipNothing(t);
  }

  lemma ParseValueOfObject(body: string)
    ensures ParseValue("{" + body) == ParseObjectTail(body)
  {
    var t := "{" + body;
    assert t[0] == '{' && t[1..] == body;
    SkipNothing(t);
  }

  lemma ParseArrayTailClose(rest: string)
    ensures ParseArrayTail("]" + rest) == Some(Parsed(JArray([]), rest))
  {
    var t := "]" + rest;
    assert t[0] == ']' && t[1..] == rest;
    SkipNothing(t);
  }

  lemma ParseArrayTailOpen(body: string, items: seq<Json>, rest: string)
    requires body != [] && StartsValue(body[0])
    requires ParseElements(body) == Some(Parsed(items, rest))
    ensures ParseArrayTail(body) == Some(Parsed(JArray(items), rest))
  {
    SkipNothing(body);
  }

  lemma ParseElementsLast(s: string, v: Json, rest: string)
    requires ParseValue(s) == Some(Parsed(v, "]" + rest))
    ensures ParseElements(s) == Some(Parsed([v], rest))
  {
    var u := "]" + rest;
    assert u[0] == ']' && u[1..] == rest;
    SkipNothing(u);
  }

  lemma ParseElementsNext(s: string, v: Json, more: string, vs: seq<Json>, rest: string)
    requires ParseValue(s) == Some(Parsed(v, "," + more))
    requires ParseElements(more) == Some(Parsed(vs, rest))
    ensures ParseElements(s) == Some(Parsed([v] + vs, rest))
  {
    var u := "," + more;
    assert u[0] == ',' && u[1..] == more;
    SkipNothing(u);
  }

  lemma ParseObjectTailClose(rest: string)
    ensures ParseObjectTail("}" + rest) == Some(Parsed(JObject([]), rest))
  {
    var t := "}" + rest;
    assert t[0] == '}' && t[1..] == rest;
    SkipNothing(t);
  }

  lemma ParseObjectTailOpen(body: string, members: seq<Member>, rest: string)
    requires body != [] && body[0] == '"'
    requires ParseMembers(body) == Some(Parsed(members, rest))
    ensures ParseObjectTail(body) == Some(Parsed(JObject(members), rest))
  {
    SkipNothing(body);
  }

  lemma ParseMembersLast(s: string, m: Member, rest: string)
    requires ParseMember(s) == Some(Parsed(m, "}" + rest))
    ensures ParseMembers(s) == Some(Parsed([m], rest))
  {
    var u := "}" + rest;
    assert u[0] == '}' && u[1..] == rest;
    SkipNothing(u);
  }

  lemma ParseMembersNext(s: string, m: Member, more: string, ms: seq<Member>, rest: string)
    requires ParseMember(s) == Some(Parsed(m, "," + more))
    requires ParseMembers(more) == Some(Parsed(ms, rest))
    ensures ParseMembers(s) == Some(Parsed([m] + ms, rest))
  {
    var u := "," + more;
    assert u[0] == ',' && u[1..] == more;
    SkipNothing(u);
  }

  lemma ParseMemberOf(body: string, key: string, valueText: string, v: Json, rest: string)
    requires ParseStringBody(body) == Some(Parsed(key, ":" + valueText))
    requires ParseValue(valueText) == Some(Parsed(v, rest))
    ensures ParseMember("\"" + body) == Some(Parsed(Member(key, v), rest))
  {
    var s := "\"" + body;
    assert s[0] == '"' && s[1..] == body;
    SkipNothing(s);
    var colon := ":" + valueText;
    assert colon[0] == ':' && colon[1..] == valueText;
    SkipNothing(colon);
  }

  // The text of compound values, regrouped

  lemma HeadTail<T>(s: seq<T>)
    requires s != []
    ensures [s[0]] + s[1..] == s
  {
  }

  lemma Regroup(a: string, b: string, c: string, d: string, e: string)
    ensures a + b + c + d + e == a + (b + (c + d + e))
  {
    assert a + b + c + d + e == a + (b + c + d + e);
    assert b + c + d + e == b + (c + d + e);
  }

  lemma ItemsTextSingle(items: seq<Json>, rest: string)
    requires |items| == 1
    ensures StringifyItems(items) + "]" + rest == Stringify(items[0]) + ("]" + rest)
  {
  }

  lemma ItemsTextCons(items: seq<Json>, rest: string)
    requires |items| > 1
    ensures StringifyItems(items) + "]" + rest
         == Stringify(items[0]) + ("," + (StringifyItems(items[1..]) + "]" + rest))
  {
    Regroup(Stringify(items[0]), ",", StringifyItems(items[1..]), "]", rest);
  }

  lemma MembersTextSingle(members: seq<Member>, rest: string)
    requires |members| == 1
    ensures StringifyMembers(members) + "}" + rest == StringifyMember(members[0]) + ("}" + rest)
  {
  }

  lemma MembersTextCons(members: seq<Member>, rest: string)
    requires |members| > 1
    ensures StringifyMembers(members) + "}" + rest
         == StringifyMember(members[0]) + ("," + (StringifyMembers(members[1..]) + "}" + rest))
  {
    Regroup(StringifyMember(members[0]), ",", StringifyMembers(members[1..]), "}", rest);
  }

  lemma MemberText(m: Member, follow: string)
    ensures StringifyMember(m) + follow
         == "\"" + (Escape(m.key) + "\"" + (":" + (Stringify(m.value) + follow)))
  {
  }

  // The round trips

  /** The characters `EscapeChar` writes with a two-character escape. */
  predicate HasShortEscape(c: char) {
    var n := c as int;
    c == '"' || c == '\\' || n == 8 || n == 9 || n == 10 || n == 12 || n == 13
  }

  lemma ParseBodyEscaped(esc: string, tail: string, c: char, x: string, rest: string)
    requires Unescape(esc + tail) == Some(Parsed(c, tail))
    requires ParseStringBody(tail) == Some(Parsed(x, rest))
    ensures ParseStringBody(['\\'] + (esc + tail)) == Some(Parsed([c] + x, rest))
  {
    var s := ['\\'] + (esc + tail);
    assert s[0] == '\\' && s[1..] == esc + tail;
  }

  lemma ParseBodyPlain(c: char, tail: string, x: string, rest: string)
    requires c != '"' && c != '\\' && c as int >= 32
    requires ParseStringBody(tail) == Some(Parsed(x, rest))
    ensures ParseStringBody([c] + tail) == Some(Parsed([c] + x, rest))
  {
    var s := [c] + tail;
    assert s[0] == c && s[1..] == tail;
  }

  lemma UnescapeShort(c: char, tail: string)
    requires HasShortEscape(c)
    ensures EscapeChar(c) == ['\\', EscapeChar(c)[1]]
    ensures Unescape([EscapeChar(c)[1]] + tail) == Some(Parsed(c, tail))
  {
    var s := [EscapeChar(c)[1]] + tail;
    assert s[1..] == tail;
  }

  lemma UnescapeControl(c: char, tail: string)
    requires !HasShortEscape(c) && c as int < 32
    ensures EscapeChar(c) == ['\\'] + EscapeChar(c)[1..]
    ensures Unescape(EscapeChar(c)[1..] + tail) == Some(Parsed(c, tail))
  {
    var n := c as int;
    var h1, h2 := HexDigit(n / 16), HexDigit(n % 16);
    var s := ['u', '0', '0', h1, h2] + tail;
    assert EscapeChar(c)[1..] == ['u', '0', '0', h1, h2];
    assert s[1] == '0' && s[2] == '0' && s[3] == h1 && s[4] == h2;
    assert s[5..] == tail;
    assert HexValue(h1) * 16 + HexValue(h2) == n;
  }

  lemma EscapeCharStep(c: char, tail: string, x: string, rest: string)
    requires ParseStringBody(tail) == Some(Parsed(x, rest))
    ensures ParseStringBody(EscapeChar(c) + tail) == Some(Parsed([c] + x, rest))
  {
    if HasShortEscape(c) {
      UnescapeShort(c, tail);
      ParseBodyEscaped([EscapeChar(c)[1]], tail, c, x, rest);
      assert EscapeChar(c) + tail == ['\\'] + ([EscapeChar(c)[1]] + tail);
    } else if c as int < 32 {
      UnescapeControl(c, tail);
      ParseBodyEscaped(EscapeChar(c)[1..], tail, c, x, rest);
      assert EscapeChar(c) + tail == ['\\'] + (EscapeChar(c)[1..] + tail);
    } else {
      assert EscapeChar(c) == [c];
      ParseBodyPlain(c, tail, x, rest);
    }
  }

  lemma {:induction false} EscapeRoundTrip(x: string, rest: string)
    ensures ParseStringBody(Escape(x) + "\"" + rest) == Some(Parsed(x, rest))
    decreases |x|
  {
    if x == [] {
      assert Escape(x) + "\"" + rest == "\"" + rest;
    } else {
      var tail := Escape(x[1..]) + "\"" + rest;
      EscapeRoundTrip(x[1..], rest);
      assert Escape(x) + "\"" + rest == EscapeChar(x[0]) + tail;
      EscapeCharStep(x[0], tail, x[1..], rest);
      assert [x[0]] + x[1..] == x;
    }
  }

  /** The digits of a numeral, read from the front of a text, stop at the
      first non-digit. */
  lemma MagnitudeRoundTrip(m: nat, rest: string)
    requires Delimited(rest)
    ensures ParseMagnitude(NatToString(m) + rest) == Some(Parsed(m, rest))
  {
    var d := NatToString(m);
    DigitRunOfNumeral(d, rest);
    DigitsValueOfNatToString(m);
    assert (d + rest)[|d|..] == rest;
  }

  lemma ParseNegative(u: string, m: nat, rest: string)
    requires ParseMagnitude(u) == Some(Parsed(m, rest))
    ensures ParseNumber(['-'] + u) == Some(Parsed(JNumber(-(m as int)), rest))
  {
    var t := ['-'] + u;
    assert t[0] == '-' && t[1..] == u;
  }

  lemma ParsePositive(u: string, m: nat, rest: string)
    requires u != [] && u[0] != '-'
    requires ParseMagnitude(u) == Some(Parsed(m, rest))
    ensures ParseNumber(u) == Some(Parsed(JNumber(m), rest))
  {
  }

  lemma NegativeRoundTrip(m: nat, rest: string)
    requires m > 0 && Delimited(rest)
    ensures ParseValue(['-'] + (NatToString(m) + rest)) == Some(Parsed(JNumber(-(m as int)), rest))
  {
    var u := NatToString(m) + rest;
    MagnitudeRoundTrip(m, rest);
    ParseNegative(u, m, rest);
    ParseValueOfNumber(['-'] + u);
  }

  lemma NonNegativeRoundTrip(m: nat, rest: string)
    requires Delimited(rest)
    ensures ParseValue(NatToString(m) + rest) == Some(Parsed(JNumber(m), rest))
  {
    var d := NatToString(m);
    var t := d + rest;
    assert t[0] == d[0];
    MagnitudeRoundTrip(m, rest);
    ParsePositive(t, m, rest);
    ParseValueOfNumber(t);
  }

  lemma NegativeText(n: int, rest: string)
    requires n < 0
    ensures IntToString(n) + rest == ['-'] + (NatToString(-n) + rest)
  {
    assert IntToString(n) == ['-'] + NatToString(-n);
  }

  lemma NumberRoundTrip(n: int, rest: string)
    requires Delimited(rest)
    ensures ParseValue(IntToString(n) + rest) == Some(Parsed(JNumber(n), rest))
  {
    if n < 0 {
      NegativeText(n, rest);
      NegativeRoundTrip(-n, rest);
    } else {
      NonNegativeRoundTrip(n, rest);
    }
  }

  lemma StringRoundTrip(x: string, rest: string)
    ensures ParseValue(Stringify(JString(x)) + rest) == Some(Parsed(JString(x), rest))
  {
    var body := Escape(x) + "\"" + rest;
    EscapeRoundTrip(x, rest);
    assert Stringify(JString(x)) + rest == "\"" + body;
    ParseValueOfString(body, x, rest);
  }

  lemma {:induction false} ArrayRoundTrip(items: seq<Json>, rest: string)
    ensures ParseValue(Stringify(JArray(items)) + rest) == Some(Parsed(JArray(items), rest))
    decreases items, 2
  {
    var body := StringifyItems(items) + "]" + rest;
    assert Stringify(JArray(items)) + rest == "[" + body;
    ParseValueOfArray(body);
    if items == [] {
      assert body == "]" + rest;
      ParseArrayTailClose(rest);
    } else {
      ItemsRoundTrip(items, rest);
      ItemsStart(items, rest);
      ParseArrayTailOpen(body, items, rest);
    }
  }

  lemma {:induction false} ObjectRoundTrip(members: seq<Member>, rest: string)
    ensures ParseValue(Stringify(JObject(members)) + rest) == Some(Parsed(JObject(members), rest))
    decreases members, 2
  {
    var body := StringifyMembers(members) + "}" + rest;
    assert Stringify(JObject(members)) + rest == "{" + body;
    ParseValueOfObject(body);
    if members == [] {
      assert body == "}" + rest;
      ParseObjectTailClose(rest);
    } else {
      MembersRoundTrip(members, rest);
      MembersStart(members, rest);
      ParseObjectTailOpen(body, members, rest);
    }
  }

  lemma {:induction false} ValueRoundTrip(v: Json, rest: string)
    requires Delimited(rest)
    ensures ParseValue(Stringify(v) + rest) == Some(Parsed(v, rest))
    decreases v, 2
  {
    match v
    case JNull => ParseValueOfKeyword("null", v, rest);
    case JBool(b) => ParseValueOfKeyword(if b then "true" else "false", v, rest);
    case JNumber(n) => NumberRoundTrip(n, rest);
    case JString(x) => StringRoundTrip(x, rest);
    case JArray(items) => ArrayRoundTrip(items, rest);
    case JObject(members) => ObjectRoundTrip(members, rest);
  }

  lemma ItemsStart(items: seq<Json>, rest: string)
    requires items != []
    ensures var body := StringifyItems(items) + "]" + rest;
            body != [] && StartsValue(body[0])
  {
    StringifyStarts(items[0]);
    if |items| == 1 {
      ItemsTextSingle(items, rest);
    } else {
      ItemsTextCons(items, rest);
    }
  }

  lemma MembersStart(members: seq<Member>, rest: string)
    requires members != []
    ensures var body := StringifyMembers(members) + "}" + rest;
            body != [] && body[0] == '"'
  {
    if |members| == 1 {
      MembersTextSingle(members, rest);
    } else {
      MembersTextCons(members, rest);
    }
    MemberText(members[0], []);
  }

  lemma {:induction false} ItemsRoundTrip(items: seq<Json>, rest: string)
    requires items != []
    ensures ParseElements(StringifyItems(items) + "]" + rest) == Some(Parsed(items, rest))
    decreases items, 1
  {
    if |items| == 1 {
      var text := StringifyItems(items) + "]" + rest;
      ItemsTextSingle(items, rest);
      ValueRoundTrip(items[0], "]" + rest);
      ParseElementsLast(text, items[0], rest);
      assert [items[0]] == items;
    } else {
      ItemsConsRoundTrip(items, rest);
    }
  }

  lemma {:induction false} ItemsConsRoundTrip(items: seq<Json>, rest: string)
    requires |items| > 1
    ensures ParseElements(StringifyItems(items) + "]" + rest) == Some(Parsed(items, rest))
    decreases items, 0
  {
    var text := StringifyItems(items) + "]" + rest;
    HeadTail(items);
    var more := StringifyItems(items[1..]) + "]" + rest;
    ItemsTextCons(items, rest);
    ValueRoundTrip(items[0], "," + more);
    ItemsRoundTrip(items[1..], rest);
    ParseElementsNext(text, items[0], more, items[1..], rest);
  }

  lemma {:induction false} MemberRoundTrip(m: Member, follow: string)
    requires Delimited(follow)
    ensures ParseMember(StringifyMember(m) + follow) == Some(Parsed(m, follow))
    decreases m, 2
  {
    var valueText := Stringify(m.value) + follow;
    MemberText(m, follow);
    EscapeRoundTrip(m.key, ":" + valueText);
    ValueRoundTrip(m.value, follow);
    ParseMemberOf(Escape(m.key) + "\"" + (":" + valueText), m.key, valueText, m.value, follow);
  }

  lemma {:induction false} MembersRoundTrip(members: seq<Member>, rest: string)
    requires members != []
    ensures ParseMembers(StringifyMembers(members) + "}" + rest) == Some(Parsed(members, rest))
    decreases members, 1
  {
    if |members| == 1 {
      var text := StringifyMembers(members) + "}" + rest;
      MembersTextSingle(members, rest);
      MemberRoundTrip(members[0], "}" + rest);
      ParseMembersLast(text, members[0], rest);
      assert [members[0]] == members;
    } else {
      MembersConsRoundTrip(members, rest);
    }
  }

  lemma {:induction false} MembersConsRoundTrip(members: seq<Member>, rest: string)
    requires |members| > 1
    ensures ParseMembers(StringifyMembers(members) + "}" + rest) == Some(Parsed(members, rest))
    decreases members, 0
  {
    var text := StringifyMembers(members) + "}" + rest;
    HeadTail(members);
    var more := StringifyMembers(members[1..]) + "}" + rest;
    MembersTextCons(members, rest);
    MemberRoundTrip(members[0], "," + more);
    MembersRoundTrip(members[1..], rest);
    ParseMembersNext(text, members[0], more, members[1..], rest);
  }

  /** `JSON.parse(JSON.stringify(v))` gives back `v`. */
  lemma ParseStringify(v: Json)
    ensures Parse(Stringify(v)) == Some(v)
  {
    ValueRoundTrip(v, []);
    assert Stringify(v) + [] == Stringify(v);
  }

  /** No value stringifies to the empty (falsy) string. */
  lemma StringifyNonEmpty(v: Json)
    ensures Stringify(v) != ""
  {
    StringifyStarts(v);
  }
}
