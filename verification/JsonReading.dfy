/** JSON as others write it: blanks anywhere between tokens, every escape, numbers out
    of range, and text that breaks off. */
module JsonReading {
  import opened Orders
  import opened JsonValue
  import opened JsonText
  import opened JsonLaws

  // ---------------------------------------------------------------- blanks between tokens

  predicate Gap(g: string) {
    forall i :: 0 <= i < |g| ==> g[i] == ' ' || g[i] == '\t' || g[i] == '\n' || g[i] == '\r'
  }

  /** A value written with `g` between any two tokens. */
  function Pretty(j: Json, g: string): string
    decreases j, 1
  {
    match j
    case Array(elements) => "[" + g + PrettyElements(elements, g) + "]"
    case Object(members) => "{" + g + PrettyMembers(members, g) + "}"
    case _ => Dump(j)
  }

  function PrettyElements(elements: seq<Json>, g: string): string
    decreases elements, 0
  {
    if elements == [] then []
    else Pretty(elements[0], g) + g + if |elements| == 1 then [] else "," + g + PrettyElements(elements[1..], g)
  }

  function PrettyMember(member: Member, g: string): string
    decreases member, 2
  {
    "\"" + EscapeAll(member.key) + "\"" + g + ":" + g + Pretty(member.value, g)
  }

  function PrettyMembers(members: seq<Member>, g: string): string
    decreases members, 0
  {
    if members == [] then []
    else PrettyMember(members[0], g) + g + if |members| == 1 then [] else "," + g + PrettyMembers(members[1..], g)
  }

  lemma {:induction false} GapSkipped(g: string, s: string)
    requires Gap(g)
    ensures SkipBlanks(g + s) == SkipBlanks(s)
    decreases |g|
  {
    if g == [] {
      assert g + s == s;
    } else {
      assert (g + s)[0] == g[0] && (g + s)[1..] == g[1..] + s;
      GapSkipped(g[1..], s);
    }
  }

  lemma {:induction false} GapThen(g: string, c: char, s: string)
    requires Gap(g) && !IsBlank(c)
    ensures SkipBlanks(g + [c] + s) == [c] + s && Boundary(g + [c] + s) == if g == [] then Boundary([c]) else true
    ensures ([c] + s)[0] == c && ([c] + s)[1..] == s
  {
    assert g + [c] + s == g + ([c] + s);
    GapSkipped(g, [c] + s);
    NotBlank([c] + s);
  }

  /** Leading blanks do not matter. */
  lemma {:induction false} LeadingGap(g: string, s: string)
    requires Gap(g)
    ensures ParseValue(g + s) == ParseValue(s) && ParseMember(g + s) == ParseMember(s)
    ensures forall out :: ParseElements(g + s, out) == ParseElements(s, out)
    ensures forall out :: ParseMembers(g + s, out) == ParseMembers(s, out)
  {
    GapSkipped(g, s);
    LeadingGapValue(g, s);
    LeadingGapMember(g, s);
  }

  lemma {:induction false} LeadingGapValue(g: string, s: string)
    requires SkipBlanks(g + s) == SkipBlanks(s)
    ensures ParseValue(g + s) == ParseValue(s)
  {
    hide SkipBlanks, ParseNumber, ParseRaw, ParseMembers, ParseElements;
  }

  lemma {:induction false} LeadingGapMember(g: string, s: string)
    requires SkipBlanks(g + s) == SkipBlanks(s)
    ensures ParseMember(g + s) == ParseMember(s)
  {
    hide SkipBlanks, ParseRaw, ParseValue;
  }

  lemma {:induction false} PrettyHead(j: Json, g: string)
    ensures Pretty(j, g) != [] && !IsBlank(Pretty(j, g)[0]) && Pretty(j, g)[0] != ']'
  {
    DumpHead(j);
  }

  /** However values are spaced out, they read back. */
  lemma {:induction false} PrettyReadBack(j: Json, g: string, rest: string)
    requires Fits(j) && Boundary(rest) && Gap(g)
    ensures ParseValue(Pretty(j, g) + rest) == Ok(j, rest)
    decreases j, 1
  {
    match j
    case Array(elements) =>
      if elements != [] {
        PrettyElementsReadBack(elements, g, [], rest);
        assert [] + elements == elements;
      }
      PrettyArray(elements, g, rest);
    case Object(members) =>
      if members != [] {
        PrettyMembersReadBack(members, g, [], rest);
        assert [] + members == members;
      }
      PrettyObject(members, g, rest);
    case _ => ValueReadBack(j, rest);
  }

  lemma {:induction false} PrettyArray(elements: seq<Json>, g: string, rest: string)
    requires Gap(g)
    requires elements != [] ==> ParseElements(PrettyElements(elements, g) + "]" + rest, []) == Ok(Array(elements), rest)
    ensures ParseValue(Pretty(Array(elements), g) + rest) == Ok(Array(elements), rest)
  {
    hide ParseElements, SkipBlanks;
    var s := Pretty(Array(elements), g) + rest;
    var u := PrettyElements(elements, g) + "]" + rest;
    Inside('[', g, PrettyElements(elements, g), "]", rest);
    NotBlank(s);
    GapSkipped(g, u);
    if elements == [] {
      assert u == "]" + rest && u[1..] == rest;
    } else {
      PrettyHead(elements[0], g);
      assert u[0] == Pretty(elements[0], g)[0];
    }
    NotBlank(u);
  }

  lemma {:induction false} PrettyObject(members: seq<Member>, g: string, rest: string)
    requires Gap(g)
    requires members != [] ==> ParseMembers(PrettyMembers(members, g) + "}" + rest, []) == Ok(Object(members), rest)
    ensures ParseValue(Pretty(Object(members), g) + rest) == Ok(Object(members), rest)
  {
    hide ParseMembers, SkipBlanks, PrettyMember;
    var s := Pretty(Object(members), g) + rest;
    var u := PrettyMembers(members, g) + "}" + rest;
    Inside('{', g, PrettyMembers(members, g), "}", rest);
    NotBlank(s);
    GapSkipped(g, u);
    if members == [] {
      assert u == "}" + rest && u[1..] == rest;
    } else {
      MemberHead(members[0], g);
      assert u[0] == PrettyMember(members[0], g)[0];
    }
    NotBlank(u);
  }

  lemma {:induction false} Inside(c: char, g: string, body: string, end: string, rest: string)
    ensures var s := [c] + g + body + end + rest; s[0] == c && s[1..] == g + (body + end + rest)
  {
  }

  lemma {:induction false} MemberHead(member: Member, g: string)
    ensures PrettyMember(member, g) != [] && PrettyMember(member, g)[0] == '"'
  {
    hide Pretty, EscapeAll;
  }

  /** A list opened after its first item. */
  lemma {:induction false} Unfolded(item: string, g: string, more: string, end: char, rest: string)
    ensures item + g + [] + [end] + rest == item + (g + [end] + rest)
    ensures item + g + ("," + g + more) + [end] + rest == item + (g + [','] + (g + (more + [end] + rest)))
  {
    assert item + g + [] + [end] + rest == item + (g + [end] + rest);
    assert item + g + ("," + g + more) + [end] + rest == item + (g + ("," + g + more + [end] + rest));
    assert "," + g + more + [end] + rest == [','] + (g + (more + [end] + rest));
  }

  /** After an element and blanks: a comma and more, or the end. */
  lemma {:induction false} ElementThen(s: string, j: Json, g: string, c: char, rest: string, out: seq<Json>)
    requires Gap(g) && !IsBlank(c) && ParseValue(s) == Ok(j, g + [c] + rest)
    ensures ParseElements(s, out) ==
            if c == ',' then ParseElements(rest, out + [j]) else if c == ']' then Ok(Array(out + [j]), rest) else Fail
  {
    hide ParseValue;
    GapThen(g, c, rest);
  }

  lemma {:induction false} MemberThen(s: string, member: Member, g: string, c: char, rest: string, out: seq<Member>)
    requires Gap(g) && !IsBlank(c) && ParseMember(s) == Ok(member, g + [c] + rest)
    ensures ParseMembers(s, out) ==
            if c == ',' then ParseMembers(rest, out + [member]) else if c == '}' then Ok(Object(out + [member]), rest) else Fail
  {
    hide ParseMember;
    GapThen(g, c, rest);
  }

  lemma {:induction false} PrettyLastElement(text: string, item: Json, g: string, out: seq<Json>, rest: string)
    requires Gap(g) && ParseValue(text + (g + [']'] + rest)) == Ok(item, g + [']'] + rest)
    ensures ParseElements(text + g + [] + [']'] + rest, out) == Ok(Array(out + [item]), rest)
  {
    hide ParseValue, ParseElements;
    Unfolded(text, g, [], ']', rest);
    ElementThen(text + (g + [']'] + rest), item, g, ']', rest, out);
  }

  lemma {:induction false} PrettyNextElement(text: string, item: Json, g: string, more: string, out: seq<Json>, rest: string)
    requires Gap(g)
    requires var tail := g + [','] + (g + (more + [']'] + rest)); ParseValue(text + tail) == Ok(item, tail)
    ensures ParseElements(text + g + ("," + g + more) + [']'] + rest, out) == ParseElements(more + [']'] + rest, out + [item])
  {
    hide ParseValue, ParseElements;
    var follow := g + (more + [']'] + rest);
    Unfolded(text, g, more, ']', rest);
    ElementThen(text + (g + [','] + follow), item, g, ',', follow, out);
    LeadingGap(g, more + [']'] + rest);
  }

  lemma {:induction false} PrettyElementsReadBack(elements: seq<Json>, g: string, out: seq<Json>, rest: string)
    requires elements != [] && Gap(g) && forall i :: 0 <= i < |elements| ==> Fits(elements[i])
    ensures ParseElements(PrettyElements(elements, g) + [']'] + rest, out) == Ok(Array(out + elements), rest)
    decreases elements, 0
  {
    hide Pretty, ParseValue, ParseElements, Fits;
    if |elements| == 1 {
      GapThen(g, ']', rest);
      PrettyReadBack(elements[0], g, g + [']'] + rest);
      PrettyLastElement(Pretty(elements[0], g), elements[0], g, out, rest);
      assert out + [elements[0]] == out + elements;
    } else {
      var more := PrettyElements(elements[1..], g);
      GapThen(g, ',', g + (more + [']'] + rest));
      PrettyReadBack(elements[0], g, g + [','] + (g + (more + [']'] + rest)));
      PrettyNextElement(Pretty(elements[0], g), elements[0], g, more, out, rest);
      PrettyElementsReadBack(elements[1..], g, out + [elements[0]], rest);
      assert out + [elements[0]] + elements[1..] == out + elements;
    }
  }

  lemma {:induction false} PrettyLastMember(text: string, item: Member, g: string, out: seq<Member>, rest: string)
    requires Gap(g) && ParseMember(text + (g + ['}'] + rest)) == Ok(item, g + ['}'] + rest)
    ensures ParseMembers(text + g + [] + ['}'] + rest, out) == Ok(Object(out + [item]), rest)
  {
    hide ParseMember, ParseMembers;
    Unfolded(text, g, [], '}', rest);
    MemberThen(text + (g + ['}'] + rest), item, g, '}', rest, out);
  }

  lemma {:induction false} PrettyNextMember(text: string, item: Member, g: string, more: string, out: seq<Member>, rest: string)
    requires Gap(g)
    requires var tail := g + [','] + (g + (more + ['}'] + rest)); ParseMember(text + tail) == Ok(item, tail)
    ensures ParseMembers(text + g + ("," + g + more) + ['}'] + rest, out) == ParseMembers(more + ['}'] + rest, out + [item])
  {
    hide ParseMember, ParseMembers;
    var follow := g + (more + ['}'] + rest);
    Unfolded(text, g, more, '}', rest);
    MemberThen(text + (g + [','] + follow), item, g, ',', follow, out);
    LeadingGap(g, more + ['}'] + rest);
  }

  lemma {:induction false} PrettyMembersReadBack(members: seq<Member>, g: string, out: seq<Member>, rest: string)
    requires members != [] && Gap(g) && forall i :: 0 <= i < |members| ==> Fits(members[i].value)
    ensures ParseMembers(PrettyMembers(members, g) + ['}'] + rest, out) == Ok(Object(out + members), rest)
    decreases members, 0
  {
    hide PrettyMember, ParseMember, ParseMembers, Fits;
    if |members| == 1 {
      GapThen(g, '}', rest);
      PrettyMemberReadBack(members[0], g, g + ['}'] + rest);
      PrettyLastMember(PrettyMember(members[0], g), members[0], g, out, rest);
      assert out + [members[0]] == out + members;
    } else {
      var more := PrettyMembers(members[1..], g);
      GapThen(g, ',', g + (more + ['}'] + rest));
      PrettyMemberReadBack(members[0], g, g + [','] + (g + (more + ['}'] + rest)));
      PrettyNextMember(PrettyMember(members[0], g), members[0], g, more, out, rest);
      PrettyMembersReadBack(members[1..], g, out + [members[0]], rest);
      assert out + [members[0]] + members[1..] == out + members;
    }
  }

  lemma {:induction false} PrettyMemberReadBack(member: Member, g: string, rest: string)
    requires Fits(member.value) && Boundary(rest) && Gap(g)
    ensures ParseMember(PrettyMember(member, g) + rest) == Ok(member, rest)
    decreases member, 2
  {
    hide Pretty, ParseValue, EscapeAll;
    var v := Pretty(member.value, g) + rest;
    PrettyReadBack(member.value, g, rest);
    LeadingGap(g, v);
    KeyThen(member.key, g, g + v, member.value, rest);
    MemberOpened(EscapeAll(member.key), g, Pretty(member.value, g), rest);
  }

  lemma {:induction false} MemberOpened(key: string, g: string, value: string, rest: string)
    ensures "\"" + key + "\"" + g + ":" + g + value + rest == "\"" + (key + "\"" + (g + [':'] + (g + (value + rest))))
  {
    var u := g + [':'] + (g + (value + rest));
    assert g + ":" + g + value + rest == u;
    assert "\"" + key + "\"" + g + ":" + g + value + rest == ("\"" + key + "\"") + (g + ":" + g + value + rest);
    assert ("\"" + key + "\"") + u == "\"" + (key + "\"" + u);
  }

  lemma {:induction false} KeyThen(key: string, g: string, v: string, j: Json, rest: string)
    requires Gap(g) && ParseValue(v) == Ok(j, rest)
    ensures ParseMember("\"" + (EscapeAll(key) + "\"" + (g + [':'] + v))) == Ok(Member(key, j), rest)
  {
    hide ParseValue, EscapeAll;
    var u := g + [':'] + v;
    var t := EscapeAll(key) + "\"" + u;
    var s := "\"" + t;
    assert s[0] == '"' && s[1..] == t;
    NotBlank(s);
    RawReadBack(key, u, []);
    assert [] + key == key;
    GapThen(g, ':', v);
  }

  /** A document laid out with blanks parses to the value it spells, whatever the blanks. */
  lemma {:induction false} BlanksIgnored(j: Json, g: string, before: string, after: string)
    requires Fits(j) && Gap(g) && Gap(before) && Gap(after)
    ensures Parse(before + Pretty(j, g) + after) == Some(j)
  {
    hide ParseValue, Pretty;
    PrettyReadBack(j, g, after);
    LeadingGap(before, Pretty(j, g) + after);
    assert before + Pretty(j, g) + after == before + (Pretty(j, g) + after);
  }

  // ---------------------------------------------------------------- escapes

  /** The bytes of a code point up to 0xFFFF: one, two or three, the leading one saying how many. */
  predicate Utf8Spells(code: int, s: string) {
    if code < 0x80 then |s| == 1 && s[0] as int == code
    else if code < 0x800 then
      |s| == 2 && 0xC0 <= s[0] as int < 0xE0 && 0x80 <= s[1] as int < 0xC0
      && (s[0] as int - 0xC0) * 64 + (s[1] as int - 0x80) == code
    else
      && |s| == 3 && 0xE0 <= s[0] as int < 0xF0 && 0x80 <= s[1] as int < 0xC0 && 0x80 <= s[2] as int < 0xC0
      && (s[0] as int - 0xE0) * 4096 + (s[1] as int - 0x80) * 64 + (s[2] as int - 0x80) == code
  }

  lemma {:induction false} ByteIs(n: int)
    requires 0 <= n < 256
    ensures Byte(n) as int == n
  {
  }

  lemma {:induction false} Utf8Is(code: int)
    requires 0 <= code < 0x1_0000
    ensures Utf8Spells(code, Utf8(code))
  {
    hide Byte;
    if code < 0x80 {
      ByteIs(code);
    } else if code < 0x800 {
      var high, low := code / 64, code % 64;
      ByteIs(0xC0 + high);
      ByteIs(0x80 + low);
    } else {
      var high, middle, low := code / 4096, code / 64 % 64, code % 64;
      ThreeParts(code);
      ByteIs(0xE0 + high);
      ByteIs(0x80 + middle);
      ByteIs(0x80 + low);
    }
  }

  lemma {:induction false} ThreeParts(code: int)
    requires 0x800 <= code < 0x1_0000
    ensures 0 <= code / 4096 < 16 && 0 <= code / 64 % 64 < 64
    ensures code / 4096 * 4096 + code / 64 % 64 * 64 + code % 64 == code
  {
    var q := code / 64;
    assert q / 64 == code / 4096;
  }

  function UpperHex(n: nat, width: nat): (s: string)
    ensures |s| == width
  {
    if width == 0 then [] else UpperHex(n / 16, width - 1) + ["0123456789ABCDEF"[n % 16]]
  }

  lemma {:induction false} UpperDigits(d: int)
    requires 0 <= d < 16
    ensures HexValue("0123456789ABCDEF"[d]) == Some(d) && !IsSpace("0123456789ABCDEF"[d])
    ensures "0123456789ABCDEF"[d] != '-' && "0123456789ABCDEF"[d] != '+' && "0123456789ABCDEF"[d] != 'x' && "0123456789ABCDEF"[d] != 'X'
  {
  }

  lemma {:induction false} UpperReadBack(n: nat, width: nat)
    requires n < Pow16(width)
    ensures forall i :: 0 <= i < width ==> exists d :: 0 <= d < 16 && UpperHex(n, width)[i] == "0123456789ABCDEF"[d]
    ensures forall i :: 0 <= i < width ==> HexValue(UpperHex(n, width)[i]).Some?
    ensures HexRun(UpperHex(n, width), 0) == n
    decreases width
  {
    hide HexValue;
    if width > 0 {
      UpperReadBack(n / 16, width - 1);
      UpperDigits(n % 16);
      HexRunConcat(UpperHex(n / 16, width - 1), "0123456789ABCDEF"[n % 16], 0);
    }
  }

  /** Hexadecimal digits may be upper case. */
  lemma {:induction false} UpperHexRead(n: nat, width: nat)
    requires width > 0 && n < Pow16(width)
    ensures ParseHex(UpperHex(n, width)) == Some(n)
  {
    hide HexValue, UpperHex, HexRun;
    UpperReadBack(n, width);
    var s := UpperHex(n, width);
    var d :| 0 <= d < 16 && s[0] == "0123456789ABCDEF"[d];
    UpperDigits(d);
    if width > 1 {
      var d1 :| 0 <= d1 < 16 && s[1] == "0123456789ABCDEF"[d1];
      UpperDigits(d1);
    }
  }

  /** "\u" and four digits, in either case, stand for the bytes of that code point. */
  lemma {:induction false} UnicodeEscape(code: nat, rest: string, out: string) returns (bytes: string)
    requires code < 0x1_0000
    ensures Utf8Spells(code, bytes)
    ensures ParseRaw("\\u" + Hex(code, 4) + rest, out) == ParseRaw(rest, out + bytes)
    ensures ParseRaw("\\u" + UpperHex(code, 4) + rest, out) == ParseRaw(rest, out + bytes)
  {
    hide ParseHex, Hex, UpperHex, Utf8, Utf8Spells;
    bytes := Utf8(code);
    Utf8Is(code);
    assert Pow16(1) == 16 && Pow16(2) == 256 && Pow16(3) == 4096 && Pow16(4) == 65536;
    ParseHexReadBack(code, 4);
    UpperHexRead(code, 4);
    EscapedCode(Hex(code, 4), code, rest, out);
    EscapedCode(UpperHex(code, 4), code, rest, out);
  }

  lemma {:induction false} EscapedCode(digits: string, code: nat, rest: string, out: string)
    requires |digits| == 4 && ParseHex(digits) == Some(code)
    ensures ParseRaw("\\u" + digits + rest, out) == ParseRaw(rest, out + Utf8(code))
  {
    hide ParseHex, Utf8;
    var s := "\\u" + digits + rest;
    assert s[2..6] == digits && s[6..] == rest && s[0] == '\\' && s[1] == 'u';
  }

  /** Every other escape is one character, and stands for one byte or is refused. */
  lemma {:induction false} ShortEscape(c: char, rest: string, out: string)
    requires c != 'u'
    ensures ParseRaw(['\\', c] + rest, out) ==
            match c
            case '"' => ParseRaw(rest, out + ['"'])
            case '\\' => ParseRaw(rest, out + ['\\'])
            case '/' => ParseRaw(rest, out + ['/'])
            case 'n' => ParseRaw(rest, out + ['\n'])
            case 'r' => ParseRaw(rest, out + ['\r'])
            case 't' => ParseRaw(rest, out + ['\t'])
            case 'b' => ParseRaw(rest, out + [8 as char])
            case 'f' => ParseRaw(rest, out + [12 as char])
            case _ => Fail
  {
    var s := ['\\', c] + rest;
    assert s[0] == '\\' && s[1] == c && s[2..] == rest;
  }

  // ---------------------------------------------------------------- refusals

  /** An integer is read exactly when it is a 64-bit one. */
  lemma {:induction false} NumberRange(n: int)
    ensures Parse(IntText(n)) == if -0x8000_0000_0000_0000 <= n <= 0x7fff_ffff_ffff_ffff then Some(Int(n)) else None
  {
    hide Decimal, DigitsPrefix, DecimalRun;
    var digits := Decimal(if n < 0 then -n else n);
    DecimalReadBack(if n < 0 then -n else n);
    DigitsPrefixOf(digits, []);
    var s := IntText(n);
    assert digits + [] == digits && digits[..|digits|] == digits && digits[|digits|..] == [];
    if n < 0 {
      assert s[1..] == digits;
    }
    NotBlank(s);
  }

  /** A string that is never closed is refused, wherever it breaks off. */
  lemma {:induction false} UnclosedString(s: string, k: nat, out: string)
    requires k <= |EscapeAll(s)|
    ensures ParseRaw(EscapeAll(s)[..k], out) == Fail
    decreases |s|
  {
    hide Escape, EscapeAll, ParseHex, Utf8;
    if s == [] {
      assert EscapeAll(s) == [] by { EscapeNothing(); }
    } else {
      EscapeFirst(s);
      var e, more := Escape(s[0]), EscapeAll(s[1..]);
      if k < |e| {
        assert EscapeAll(s)[..k] == e[..k];
        BrokenEscape(s[0], k, out);
      } else {
        assert EscapeAll(s)[..k] == e + more[..k - |e|];
        EscapeReadBack(s[0], more[..k - |e|], out);
        UnclosedString(s[1..], k - |e|, out + [s[0]]);
      }
    }
  }

  lemma {:induction false} EscapeNothing()
    ensures EscapeAll([]) == []
  {
  }

  lemma {:induction false} EscapeFirst(s: string)
    requires s != []
    ensures EscapeAll(s) == Escape(s[0]) + EscapeAll(s[1..])
  {
  }

  lemma {:induction false} BrokenEscape(c: char, k: nat, out: string)
    requires k < |Escape(c)|
    ensures ParseRaw(Escape(c)[..k], out) == Fail
  {
    hide ParseHex, Utf8, Hex;
  }
}
