/** The JSON writer and parser as the program runs them: an output buffer that
    grows, and a parser object that moves a position through its text. */
module JsonCodec {
  import opened Orders
  import opened JsonValue
  import opened JsonText

  // ---------------------------------------------------------------- writing

  lemma {:induction false} EscapeAllSplit(s: string, i: nat)
    requires i < |s|
    ensures EscapeAll(s[..i + 1]) == EscapeAll(s[..i]) + Escape(s[i])
    decreases |s|
  {
    if i == 0 {
      assert s[..1] == [s[0]] && s[..0] == [];
      assert EscapeAll([s[0]]) == Escape(s[0]) + EscapeAll([]);
    } else {
      assert s[..i + 1][1..] == s[1..][..i] && s[..i][1..] == s[1..][..i - 1];
      EscapeAllSplit(s[1..], i - 1);
    }
  }

  lemma {:induction false} Assoc(a: string, b: string, c: string)
    ensures (a + b) + c == a + (b + c)
  {
  }

  method WriteString(s: string, out: string) returns (r: string)
    ensures r == out + DumpString(s)
  {
    r := out + "\"";
    ghost var start := r;
    var i := 0;
    while i < |s|
      invariant i <= |s|
      invariant r == start + EscapeAll(s[..i])
    {
      EscapeAllSplit(s, i);
      Assoc(start, EscapeAll(s[..i]), Escape(s[i]));
      r := r + Escape(s[i]);
      i := i + 1;
    }
    assert s[..i] == s;
    r := r + "\"";
    Assoc(out, "\"", EscapeAll(s));
    Assoc(out, "\"" + EscapeAll(s), "\"");
  }

  /** The part of an array's text that is written once `i` elements are out. */
  function ElementsFrom(elements: seq<Json>, i: nat): string
    requires i <= |elements|
  {
    if i == |elements| then [] else (if i > 0 then "," else "") + DumpElements(elements[i..])
  }

  function MembersFrom(members: seq<Member>, i: nat): string
    requires i <= |members|
  {
    if i == |members| then [] else (if i > 0 then "," else "") + DumpMembers(members[i..])
  }

  lemma {:induction false} NextElement(elements: seq<Json>, i: nat)
    requires i < |elements|
    ensures ElementsFrom(elements, i) == ((if i > 0 then "," else "") + Dump(elements[i])) + ElementsFrom(elements, i + 1)
  {
    var left := elements[i..];
    assert left[0] == elements[i] && left[1..] == elements[i + 1..];
  }

  lemma {:induction false} NextMember(members: seq<Member>, i: nat)
    requires i < |members|
    ensures MembersFrom(members, i) == ((if i > 0 then "," else "") + DumpMember(members[i])) + MembersFrom(members, i + 1)
  {
    var left := members[i..];
    assert left[0] == members[i] && left[1..] == members[i + 1..];
  }

  method WriteValue(j: Json, out: string) returns (r: string)
    ensures r == out + Dump(j)
    decreases j, 1
  {
    match j
    case Null => r := out + "null";
    case Bool(flag) => r := out + (if flag then "true" else "false");
    case Int(n) => r := out + IntText(n);
    case String(s) => r := WriteString(s, out);
    case Array(elements) => r := WriteArray(elements, out);
    case Object(members) => r := WriteObject(members, out);
  }

  lemma {:induction false} ArrayProgress(r: string, elements: seq<Json>, i: nat)
    requires i < |elements|
    ensures ((r + if i > 0 then "," else "") + Dump(elements[i])) + ElementsFrom(elements, i + 1) == r + ElementsFrom(elements, i)
  {
    NextElement(elements, i);
    var sep, text := if i > 0 then "," else "", Dump(elements[i]);
    Assoc(r, sep, text);
    Assoc(r, sep + text, ElementsFrom(elements, i + 1));
  }

  method WriteArray(elements: seq<Json>, out: string) returns (r: string)
    ensures r == out + ("[" + DumpElements(elements) + "]")
    decreases elements, 0
  {
    r := out + "[";
    ghost var all := r + ElementsFrom(elements, 0);
    var i := 0;
    while i < |elements|
      invariant i <= |elements|
      invariant r + ElementsFrom(elements, i) == all
    {
      ArrayProgress(r, elements, i);
      var sep := if i > 0 then "," else "";
      r := WriteValue(elements[i], r + sep);
      i := i + 1;
    }
    r := r + "]";
    ArrayCloses(out, elements);
  }

  lemma {:induction false} ArrayCloses(out: string, elements: seq<Json>)
    ensures ((out + "[") + ElementsFrom(elements, 0)) + "]" == out + ("[" + DumpElements(elements) + "]")
  {
    assert elements[0..] == elements && "" + DumpElements(elements) == DumpElements(elements);
    Assoc(out, "[", DumpElements(elements));
    Assoc(out, "[" + DumpElements(elements), "]");
  }

  lemma {:induction false} ObjectProgress(r: string, members: seq<Member>, i: nat)
    requires i < |members|
    ensures ((r + if i > 0 then "," else "") + DumpMember(members[i])) + MembersFrom(members, i + 1) == r + MembersFrom(members, i)
  {
    NextMember(members, i);
    var sep, text := if i > 0 then "," else "", DumpMember(members[i]);
    Assoc(r, sep, text);
    Assoc(r, sep + text, MembersFrom(members, i + 1));
  }

  method WriteObject(members: seq<Member>, out: string) returns (r: string)
    ensures r == out + ("{" + DumpMembers(members) + "}")
    decreases members, 0
  {
    r := out + "{";
    ghost var all := r + MembersFrom(members, 0);
    var i := 0;
    while i < |members|
      invariant i <= |members|
      invariant r + MembersFrom(members, i) == all
    {
      ObjectProgress(r, members, i);
      var sep := if i > 0 then "," else "";
      r := WriteMember(members[i], r + sep);
      i := i + 1;
    }
    r := r + "}";
    ObjectCloses(out, members);
  }

  lemma {:induction false} ObjectCloses(out: string, members: seq<Member>)
    ensures ((out + "{") + MembersFrom(members, 0)) + "}" == out + ("{" + DumpMembers(members) + "}")
  {
    assert members[0..] == members && "" + DumpMembers(members) == DumpMembers(members);
    Assoc(out, "{", DumpMembers(members));
    Assoc(out, "{" + DumpMembers(members), "}");
  }

  method WriteMember(member: Member, out: string) returns (r: string)
    ensures r == out + DumpMember(member)
    decreases member, 2
  {
    r := WriteString(member.key, out);
    r := r + ":";
    r := WriteValue(member.value, r);
  }

  // ---------------------------------------------------------------- parsing

  /** A method's result and what is left of the text agree with the specification. */
  ghost predicate Agrees<T>(spec: Parsed<T>, r: Option<T>, left: string) {
    if spec.Ok? then r == Some(spec.value) && left == spec.rest else r.None?
  }

  class Parser {
    const text: string
    var pos: nat

    ghost predicate Valid()
      reads this
    {
      pos <= |text|
    }

    ghost function Left(): string
      requires Valid()
      reads this
    {
      text[pos..]
    }

    constructor (t: string)
      ensures text == t && Valid() && Left() == t
    {
      text, pos := t, 0;
    }

    method SkipWs()
      requires Valid()
      modifies this
      ensures Valid() && pos >= old(pos) && Left() == SkipBlanks(old(Left()))
    {
      while pos < |text| && IsBlank(text[pos])
        invariant Valid() && pos >= old(pos)
        invariant SkipBlanks(Left()) == SkipBlanks(old(Left()))
        decreases |text| - pos
      {
        assert Left()[0] == text[pos] && Left()[1..] == text[pos + 1..];
        pos := pos + 1;
      }
    }

    static lemma {:induction false} RawStep(s: string, out: string)
      ensures ParseRaw(s, out) ==
              if s == [] then Fail
              else if s[0] == '"' then Ok(out, s[1..])
              else if s[0] != '\\' then ParseRaw(s[1..], out + [s[0]])
              else if |s| < 2 then Fail
              else if Unescape(s[1]).Some? then ParseRaw(s[2..], out + [Unescape(s[1]).value])
              else if s[1] != 'u' || |s| < 6 || ParseHex(s[2..6]).None? then Fail
              else ParseRaw(s[6..], out + Utf8(ParseHex(s[2..6]).value))
    {
      hide ParseHex, Utf8, Unescape;
    }

    method ParseRawString() returns (r: Option<string>)
      requires pos < |text|
      modifies this
      ensures Valid() && pos > old(pos) && Agrees(ParseRaw(old(text[pos + 1..]), []), r, Left())
    {
      hide ParseHex, Utf8, Unescape, ParseRaw;
      pos := pos + 1;
      ghost var start := pos;
      var out := [];
      while true
        invariant Valid() && pos >= start
        invariant ParseRaw(Left(), out) == ParseRaw(old(text[pos + 1..]), [])
        decreases |text| - pos
      {
        RawStep(Left(), out);
        if pos >= |text| {
          return None;
        }
        var c := text[pos];
        assert Left()[0] == c && Left()[1..] == text[pos + 1..];
        pos := pos + 1;
        if c == '"' {
          return Some(out);
        }
        if c == '\\' {
          if pos >= |text| {
            return None;
          }
          var e := text[pos];
          pos := pos + 1;
          assert text[pos - 2..][1] == e && text[pos - 2..][2..] == text[pos..];
          if Unescape(e).Some? {
            out := out + [Unescape(e).value];
          } else if e == 'u' {
            if pos + 4 > |text| {
              return None;
            }
            var code := ParseHex(text[pos..pos + 4]);
            assert text[pos - 2..][2..6] == text[pos..pos + 4] && text[pos - 2..][6..] == text[pos + 4..];
            if code.None? {
              return None;
            }
            pos := pos + 4;
            out := out + Utf8(code.value);
          } else {
            return None;
          }
        } else {
          out := out + [c];
        }
      }
    }

    static lemma {:induction false} NumberStep(s: string)
      ensures var negative := s != [] && s[0] == '-';
              var t := if negative then s[1..] else s;
              var n := DigitsPrefix(t);
              && (n < |t| && IsNumberMark(t[n]) ==> ParseNumber(s).Fail?)
              && (!(n < |t| && IsNumberMark(t[n])) ==>
                    var v := ParseDecimal(negative, t[..n]);
                    ParseNumber(s) == if v.None? then Fail else Ok(Int(v.value), t[n..]))
    {
      hide DigitsPrefix, ParseDecimal, IsNumberMark;
    }

    static lemma {:induction false} Slices(text: string, start: nat, pos: nat)
      requires start <= pos <= |text|
      ensures var t, n := text[start..], pos - start;
              t[..n] == text[start..pos] && t[n..] == text[pos..] && (n < |t| ==> t[n] == text[pos])
    {
    }

    method SkipDigits()
      requires Valid()
      modifies this
      ensures Valid() && pos == old(pos) + DigitsPrefix(old(Left()))
    {
      hide IsDigit, DigitsPrefix;
      ghost var t, start := Left(), pos;
      while pos < |text| && IsDigit(text[pos])
        invariant start <= pos <= start + DigitsPrefix(t) && Valid()
        decreases |text| - pos
      {
        assert t[pos - start] == text[pos];
        pos := pos + 1;
      }
      assert pos < |text| ==> t[pos - start] == text[pos];
    }

    method ParseNumberToken() returns (r: Option<Json>)
      requires pos < |text|
      modifies this
      ensures Valid() && (r.Some? ==> pos > old(pos)) && Agrees(ParseNumber(old(Left())), r, Left())
    {
      hide ParseDecimal, DigitsPrefix, ParseNumber, IsNumberMark, IsDigit;
      ghost var s := Left();
      NumberStep(s);
      var negative := text[pos] == '-';
      if negative {
        pos := pos + 1;
      }
      var start := pos;
      ghost var t := Left();
      assert t == if negative then s[1..] else s;
      SkipDigits();
      ghost var n := pos - start;
      Slices(text, start, pos);
      if pos < |text| && IsNumberMark(text[pos]) {
        return None;
      }
      var v := ParseDecimal(negative, text[start..pos]);
      if v.None? {
        return None;
      }
      r := Some(Int(v.value));
    }

    method Literal(word: string, j: Json) returns (r: Option<Json>)
      requires Valid() && word != []
      modifies this
      ensures Valid() && (r.Some? ==> pos > old(pos)) && Agrees(ParseLiteral(old(Left()), word, j), r, Left())
    {
      assert |word| <= |text| - pos ==> Left()[..|word|] == text[pos..pos + |word|];
      if |word| <= |text| - pos && text[pos..pos + |word|] == word {
        assert Left()[|word|..] == text[pos + |word|..];
        pos := pos + |word|;
        return Some(j);
      }
      return None;
    }

    /** A comma announces another item, `close` ends the list. */
    method Separator(close: char) returns (more: Option<bool>)
      requires Valid() && close != ','
      modifies this
      ensures Valid() && pos >= old(pos)
      ensures var t := SkipBlanks(old(Left()));
              && (more.None? <==> t == [] || (t[0] != ',' && t[0] != close))
              && (more.Some? ==> pos > old(pos) && more.value == (t[0] == ',') && Left() == t[1..])
    {
      SkipWs();
      if pos >= |text| {
        return None;
      }
      assert Left()[0] == text[pos] && Left()[1..] == text[pos + 1..];
      if text[pos] != ',' && text[pos] != close {
        return None;
      }
      more := Some(text[pos] == ',');
      pos := pos + 1;
    }

    method ParseAny() returns (r: Option<Json>)
      requires Valid()
      modifies this
      ensures Valid() && (r.Some? ==> pos > old(pos)) && Agrees(ParseValue(old(Left())), r, Left())
      decreases |text| - pos, 1
    {
      SkipWs();
      if pos >= |text| {
        return None;
      }
      var c := text[pos];
      assert Left()[0] == c && Left()[1..] == text[pos + 1..];
      if c == '{' {
        r := ParseObjectText();
      } else if c == '[' {
        r := ParseArrayText();
      } else if c == '"' {
        var s := ParseRawString();
        r := if s.Some? then Some(String(s.value)) else None;
      } else if c == 't' {
        r := Literal("true", Bool(true));
      } else if c == 'f' {
        r := Literal("false", Bool(false));
      } else if c == 'n' {
        r := Literal("null", Null);
      } else {
        r := ParseNumberToken();
      }
    }

    method ParseArrayText() returns (r: Option<Json>)
      requires pos < |text| && text[pos] == '['
      modifies this
      ensures Valid() && (r.Some? ==> pos > old(pos))
      ensures var u := SkipBlanks(old(text[pos + 1..]));
              Agrees(if u == [] then Fail else if u[0] == ']' then Ok(Array([]), u[1..]) else ParseElements(u, []), r, Left())
      decreases |text| - pos, 0
    {
      pos := pos + 1;
      SkipWs();
      if pos >= |text| {
        return None;
      }
      assert Left()[0] == text[pos] && Left()[1..] == text[pos + 1..];
      if text[pos] == ']' {
        pos := pos + 1;
        return Some(Array([]));
      }
      r := ParseElementList();
    }

    method ParseElementList() returns (r: Option<Json>)
      requires Valid()
      modifies this
      ensures Valid() && (r.Some? ==> pos > old(pos)) && Agrees(ParseElements(old(Left()), []), r, Left())
      decreases |text| - pos, 3
    {
      ghost var u := Left();
      var out := [];
      while true
        invariant Valid() && pos >= old(pos)
        invariant ParseElements(Left(), out) == ParseElements(u, [])
        decreases |text| - pos
      {
        var v := ParseAny();
        if v.None? {
          return None;
        }
        var more := Separator(']');
        if more.None? {
          return None;
        }
        out := out + [v.value];
        if !more.value {
          return Some(Array(out));
        }
      }
    }

    method ParseMemberText() returns (r: Option<Member>)
      requires Valid()
      modifies this
      ensures Valid() && (r.Some? ==> pos > old(pos)) && Agrees(ParseMember(old(Left())), r, Left())
      decreases |text| - pos, 2
    {
      hide ParseValue, ParseRaw, SkipBlanks;
      SkipWs();
      if pos >= |text| || text[pos] != '"' {
        assert Left() != [] ==> Left()[0] == text[pos];
        return None;
      }
      assert Left()[0] == text[pos] && Left()[1..] == text[pos + 1..];
      var key := ParseRawString();
      if key.None? {
        return None;
      }
      SkipWs();
      if pos >= |text| || text[pos] != ':' {
        assert Left() != [] ==> Left()[0] == text[pos];
        return None;
      }
      assert Left()[0] == text[pos] && Left()[1..] == text[pos + 1..];
      pos := pos + 1;
      var v := ParseAny();
      if v.None? {
        return None;
      }
      r := Some(Member(key.value, v.value));
    }

    method ParseObjectText() returns (r: Option<Json>)
      requires pos < |text| && text[pos] == '{'
      modifies this
      ensures Valid() && (r.Some? ==> pos > old(pos))
      ensures var u := SkipBlanks(old(text[pos + 1..]));
              Agrees(if u == [] then Fail else if u[0] == '}' then Ok(Object([]), u[1..]) else ParseMembers(u, []), r, Left())
      decreases |text| - pos, 0
    {
      pos := pos + 1;
      SkipWs();
      if pos >= |text| {
        return None;
      }
      assert Left()[0] == text[pos] && Left()[1..] == text[pos + 1..];
      if text[pos] == '}' {
        pos := pos + 1;
        return Some(Object([]));
      }
      r := ParseMemberList();
    }

    method ParseMemberList() returns (r: Option<Json>)
      requires Valid()
      modifies this
      ensures Valid() && (r.Some? ==> pos > old(pos)) && Agrees(ParseMembers(old(Left()), []), r, Left())
      decreases |text| - pos, 3
    {
      ghost var u := Left();
      var out := [];
      while true
        invariant Valid() && pos >= old(pos)
        invariant ParseMembers(Left(), out) == ParseMembers(u, [])
        decreases |text| - pos
      {
        var v := ParseMemberText();
        if v.None? {
          return None;
        }
        var more := Separator('}');
        if more.None? {
          return None;
        }
        out := out + [v.value];
        if !more.value {
          return Some(Object(out));
        }
      }
    }
  }

  method DumpText(j: Json) returns (text: string)
    ensures text == Dump(j)
  {
    text := WriteValue(j, "");
  }

  method ParseText(text: string) returns (r: Option<Json>)
    ensures r == Parse(text)
  {
    var parser := new Parser(text);
    r := parser.ParseAny();
  }
}
