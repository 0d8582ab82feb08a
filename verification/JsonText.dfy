/** JSON text: writing and parsing (src/json.cpp).  Texts are byte strings.
    Parsing works on what is left of the text; `Fail` stands for the exceptions. */
module JsonText {
  import opened Orders
  import opened JsonValue

  const BACKSPACE := 8 as char
  const FORM_FEED := 12 as char

  // ---------------------------------------------------------------- writing

  function Digit(d: int): char
    requires 0 <= d < 10
  {
    ('0' as int + d) as char
  }

  function Decimal(n: nat): (r: string)
    ensures r != []
  {
    if n < 10 then [Digit(n)] else Decimal(n / 10) + [Digit(n % 10)]
  }

  function IntText(n: int): string {
    if n < 0 then "-" + Decimal(-n) else Decimal(n)
  }

  function HexDigit(d: int): char
    requires 0 <= d < 16
  {
    if d < 10 then Digit(d) else ('a' as int + d - 10) as char
  }

  /** The lowest `width` hexadecimal digits of `n`, most significant first. */
  function Hex(n: nat, width: nat): (r: string)
    ensures |r| == width
    decreases width, n
  {
    if width == 0 then [] else Hex(n / 16, width - 1) + [HexDigit(n % 16)]
  }

  function Escape(c: char): string {
    if c == '"' then "\\\""
    else if c == '\\' then "\\\\"
    else if c == '\n' then "\\n"
    else if c == '\r' then "\\r"
    else if c == '\t' then "\\t"
    else if c == BACKSPACE then "\\b"
    else if c == FORM_FEED then "\\f"
    else if c as int < 0x20 then "\\u" + Hex(c as int, 4)
    else [c]
  }

  function EscapeAll(s: string): string {
    if s == [] then [] else Escape(s[0]) + EscapeAll(s[1..])
  }

  function DumpString(s: string): string {
    "\"" + EscapeAll(s) + "\""
  }

  function Dump(j: Json): string
    decreases j, 1
  {
    match j
    case Null => "null"
    case Bool(flag) => if flag then "true" else "false"
    case Int(n) => IntText(n)
    case String(s) => DumpString(s)
    case Array(elements) => "[" + DumpElements(elements) + "]"
    case Object(members) => "{" + DumpMembers(members) + "}"
  }

  function DumpElements(elements: seq<Json>): string
    decreases elements, 0
  {
    if elements == [] then []
    else if |elements| == 1 then Dump(elements[0])
    else Dump(elements[0]) + "," + DumpElements(elements[1..])
  }

  function DumpMember(member: Member): string
    decreases member, 2
  {
    DumpString(member.key) + ":" + Dump(member.value)
  }

  function DumpMembers(members: seq<Member>): string
    decreases members, 0
  {
    if members == [] then []
    else if |members| == 1 then DumpMember(members[0])
    else DumpMember(members[0]) + "," + DumpMembers(members[1..])
  }

  // ---------------------------------------------------------------- number conversions of the C library

  predicate IsSpace(c: char) {
    c == ' ' || 9 <= c as int <= 13
  }

  predicate IsDigit(c: char) {
    '0' <= c <= '9'
  }

  function HexValue(c: char): (r: Option<int>)
    ensures r.Some? ==> 0 <= r.value < 16
  {
    if IsDigit(c) then Some(c as int - '0' as int)
    else if 'a' <= c <= 'f' then Some(c as int - 'a' as int + 10)
    else if 'A' <= c <= 'F' then Some(c as int - 'A' as int + 10)
    else None
  }

  /** Value of the longest run of hexadecimal digits, continuing from `value`. */
  function HexRun(s: string, value: nat): nat
    decreases |s|
  {
    if s == [] || HexValue(s[0]).None? then value else HexRun(s[1..], value * 16 + HexValue(s[0]).value)
  }

  function AfterSpaces(s: string): string {
    if s != [] && IsSpace(s[0]) then AfterSpaces(s[1..]) else s
  }

  /** strtol in base 16: spaces, a sign, an optional 0x, then digits; None without any digit. */
  function ParseHex(s: string): Option<int> {
    var t := AfterSpaces(s);
    var negative := t != [] && t[0] == '-';
    var u := if t != [] && (t[0] == '-' || t[0] == '+') then t[1..] else t;
    var digits := if |u| >= 3 && u[0] == '0' && (u[1] == 'x' || u[1] == 'X') && HexValue(u[2]).Some? then u[2..] else u;
    if digits == [] || HexValue(digits[0]).None? then None
    else
      var n: int := HexRun(digits, 0);
      Some(if negative then -n else n)
  }

  function DigitValue(c: char): nat
    requires IsDigit(c)
  {
    c as int - '0' as int
  }

  function DecimalRun(s: string, value: nat): nat
    requires forall i :: 0 <= i < |s| ==> IsDigit(s[i])
    decreases |s|
  {
    if s == [] then value else DecimalRun(s[1..], value * 10 + DigitValue(s[0]))
  }

  /** stoll on an optional sign and digits: None when empty or out of range. */
  function ParseDecimal(negative: bool, digits: string): Option<int>
    requires forall i :: 0 <= i < |digits| ==> IsDigit(digits[i])
  {
    if digits == [] then None else
    var n: int := DecimalRun(digits, 0);
    var v := if negative then -n else n;
    if MIN_INT <= v <= MAX_INT then Some(v) else None
  }

  // ---------------------------------------------------------------- parsing

  datatype Parsed<T> = Ok(value: T, rest: string) | Fail

  predicate IsBlank(c: char) {
    c == ' ' || c == '\t' || c == '\n' || c == '\r'
  }

  function SkipBlanks(s: string): (r: string)
    ensures |r| <= |s|
  {
    if s != [] && IsBlank(s[0]) then SkipBlanks(s[1..]) else s
  }

  predicate StartsWith(s: string, prefix: string) {
    |prefix| <= |s| && s[..|prefix|] == prefix
  }

  function Byte(n: int): char {
    (n % 256) as char
  }

  /** UTF-8 bytes of a \u escape; surrogates are not combined. */
  function Utf8(code: int): string {
    if code < 0x80 then [Byte(code)]
    else if code < 0x800 then [Byte(0xC0 + code / 64), Byte(0x80 + code % 64)]
    else [Byte(0xE0 + code / 4096), Byte(0x80 + code / 64 % 64), Byte(0x80 + code % 64)]
  }

  function Unescape(e: char): Option<char> {
    if e == '"' || e == '\\' || e == '/' then Some(e)
    else if e == 'n' then Some('\n')
    else if e == 'r' then Some('\r')
    else if e == 't' then Some('\t')
    else if e == 'b' then Some(BACKSPACE)
    else if e == 'f' then Some(FORM_FEED)
    else None
  }

  /** The rest of a string after its opening quote. */
  function ParseRaw(s: string, out: string): (r: Parsed<string>)
    ensures r.Ok? ==> |r.rest| < |s|
    decreases |s|
  {
    if s == [] then Fail
    else if s[0] == '"' then Ok(out, s[1..])
    else if s[0] != '\\' then ParseRaw(s[1..], out + [s[0]])
    else if |s| < 2 then Fail
    else if Unescape(s[1]).Some? then ParseRaw(s[2..], out + [Unescape(s[1]).value])
    else if s[1] != 'u' || |s| < 6 || ParseHex(s[2..6]).None? then Fail
    else ParseRaw(s[6..], out + Utf8(ParseHex(s[2..6]).value))
  }

  predicate IsNumberMark(c: char) {
    c == '.' || c == 'e' || c == 'E' || c == '+' || c == '-'
  }

  function DigitsPrefix(s: string): (n: nat)
    ensures n <= |s| && forall i :: 0 <= i < n ==> IsDigit(s[i])
    ensures n < |s| ==> !IsDigit(s[n])
  {
    if s != [] && IsDigit(s[0]) then 1 + DigitsPrefix(s[1..]) else 0
  }

  /** An integer token.  A token with a point, an exponent or a further sign is a
      floating-point number, which is not modelled and fails here. */
  function ParseNumber(s: string): (r: Parsed<Json>)
    ensures r.Ok? ==> |r.rest| < |s|
  {
    var negative := s != [] && s[0] == '-';
    var t := if negative then s[1..] else s;
    var n := DigitsPrefix(t);
    if n < |t| && IsNumberMark(t[n]) then Fail else
    var v := ParseDecimal(negative, t[..n]);
    if v.None? then Fail else Ok(Int(v.value), t[n..])
  }

  function ParseLiteral(s: string, text: string, j: Json): (r: Parsed<Json>)
    requires text != []
    ensures r.Ok? ==> |r.rest| < |s|
  {
    if StartsWith(s, text) then Ok(j, s[|text|..]) else Fail
  }

  function ParseValue(s: string): (r: Parsed<Json>)
    ensures r.Ok? ==> |r.rest| < |s|
    decreases |s|, 1
  {
    var t := SkipBlanks(s);
    if t == [] then Fail
    else if t[0] == '{' then
      var u := SkipBlanks(t[1..]);
      if u == [] then Fail else if u[0] == '}' then Ok(Object([]), u[1..]) else ParseMembers(u, [])
    else if t[0] == '[' then
      var u := SkipBlanks(t[1..]);
      if u == [] then Fail else if u[0] == ']' then Ok(Array([]), u[1..]) else ParseElements(u, [])
    else if t[0] == '"' then
      var r := ParseRaw(t[1..], []);
      if r.Fail? then Fail else Ok(String(r.value), r.rest)
    else if t[0] == 't' then ParseLiteral(t, "true", Bool(true))
    else if t[0] == 'f' then ParseLiteral(t, "false", Bool(false))
    else if t[0] == 'n' then ParseLiteral(t, "null", Null)
    else ParseNumber(t)
  }

  function ParseElements(s: string, out: seq<Json>): (r: Parsed<Json>)
    ensures r.Ok? ==> |r.rest| < |s|
    decreases |s|, 2
  {
    var v := ParseValue(s);
    if v.Fail? then Fail else
    var t := SkipBlanks(v.rest);
    if t == [] then Fail
    else if t[0] == ',' then ParseElements(t[1..], out + [v.value])
    else if t[0] == ']' then Ok(Array(out + [v.value]), t[1..])
    else Fail
  }

  function ParseMember(s: string): (r: Parsed<Member>)
    ensures r.Ok? ==> |r.rest| < |s|
    decreases |s|, 2
  {
    var t := SkipBlanks(s);
    if t == [] || t[0] != '"' then Fail else
    var key := ParseRaw(t[1..], []);
    if key.Fail? then Fail else
    var u := SkipBlanks(key.rest);
    if u == [] || u[0] != ':' then Fail else
    var v := ParseValue(u[1..]);
    if v.Fail? then Fail else Ok(Member(key.value, v.value), v.rest)
  }

  function ParseMembers(s: string, out: seq<Member>): (r: Parsed<Json>)
    ensures r.Ok? ==> |r.rest| < |s|
    decreases |s|, 3
  {
    var v := ParseMember(s);
    if v.Fail? then Fail else
    var t := SkipBlanks(v.rest);
    if t == [] then Fail
    else if t[0] == ',' then ParseMembers(t[1..], out + [v.value])
    else if t[0] == '}' then Ok(Object(out + [v.value]), t[1..])
    else Fail
  }

  /** Trailing text after the value is ignored. */
  function Parse(text: string): Option<Json> {
    var r := ParseValue(text);
    if r.Ok? then Some(r.value) else None
  }
}
