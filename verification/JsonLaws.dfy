/** Parsing undoes writing, and written text holds no control byte. */
module JsonLaws {
  import opened Orders
  import opened JsonValue
  import opened JsonText

  /** Every integer is a 64-bit one, as the C++ type has it. */
  predicate Fits(j: Json)
    decreases j
  {
    match j
    case Int(n) => MIN_INT <= n <= MAX_INT
    case Array(elements) => forall i :: 0 <= i < |elements| ==> Fits(elements[i])
    case Object(members) => forall i :: 0 <= i < |members| ==> Fits(members[i].value)
    case _ => true
  }

  /** Text that cannot be read as more of a number. */
  predicate Boundary(rest: string) {
    rest == [] || (!IsDigit(rest[0]) && !IsNumberMark(rest[0]))
  }

  // ---------------------------------------------------------------- numbers

  predicate AllDigits(s: string) {
    forall i :: 0 <= i < |s| ==> IsDigit(s[i])
  }

  lemma {:induction false} DecimalRunConcat(a: string, b: string, value: nat)
    requires AllDigits(a) && AllDigits(b)
    ensures AllDigits(a + b) && DecimalRun(a + b, value) == DecimalRun(b, DecimalRun(a, value))
    decreases |a|
  {
    if a == [] {
      assert a + b == b;
    } else {
      assert (a + b)[1..] == a[1..] + b;
      DecimalRunConcat(a[1..], b, value * 10 + DigitValue(a[0]));
    }
  }

  lemma {:induction false} DecimalReadBack(n: nat)
    ensures AllDigits(Decimal(n)) && DecimalRun(Decimal(n), 0) == n
  {
    if n >= 10 {
      DecimalReadBack(n / 10);
      DecimalRunConcat(Decimal(n / 10), [Digit(n % 10)], 0);
      assert DecimalRun([Digit(n % 10)], n / 10) == n / 10 * 10 + n % 10;
    }
  }

  lemma {:induction false} DigitsPrefixOf(a: string, rest: string)
    requires AllDigits(a) && (rest == [] || !IsDigit(rest[0]))
    ensures DigitsPrefix(a + rest) == |a|
  {
    if a == [] {
      assert a + rest == rest;
    } else {
      assert (a + rest)[1..] == a[1..] + rest;
      DigitsPrefixOf(a[1..], rest);
    }
  }

  lemma {:induction false} NumberReadBack(n: int, rest: string)
    requires MIN_INT <= n <= MAX_INT && Boundary(rest)
    ensures ParseNumber(IntText(n) + rest) == Ok(Int(n), rest)
  {
    hide Decimal, DigitsPrefix, DecimalRun;
    var digits := Decimal(if n < 0 then -n else n);
    DecimalReadBack(if n < 0 then -n else n);
    DigitsPrefixOf(digits, rest);
    var s := IntText(n) + rest;
    if n < 0 {
      assert s[1..] == digits + rest;
    }
    assert (digits + rest)[..|digits|] == digits && (digits + rest)[|digits|..] == rest;
  }

  lemma {:induction false} HexRunConcat(a: string, c: char, value: nat)
    requires forall i :: 0 <= i < |a| ==> HexValue(a[i]).Some?
    requires HexValue(c).Some?
    ensures HexRun(a + [c], value) == HexRun(a, value) * 16 + HexValue(c).value
    decreases |a|
  {
    if a == [] {
      assert a + [c] == [c] && [c][1..] == [];
    } else {
      assert (a + [c])[1..] == a[1..] + [c];
      HexRunConcat(a[1..], c, value * 16 + HexValue(a[0]).value);
    }
  }

  function Pow16(k: nat): nat {
    if k == 0 then 1 else 16 * Pow16(k - 1)
  }

  lemma {:induction false} HexDigitValue(d: int)
    requires 0 <= d < 16
    ensures HexValue(HexDigit(d)) == Some(d) && HexDigit(d) != 'x' && HexDigit(d) != 'X' && HexDigit(d) as int >= 0x20
    ensures !IsSpace(HexDigit(d)) && HexDigit(d) != '-' && HexDigit(d) != '+'
  {
  }

  lemma {:induction false} HexReadBack(n: nat, width: nat)
    requires n < Pow16(width)
    ensures forall i :: 0 <= i < width ==> exists d :: 0 <= d < 16 && Hex(n, width)[i] == HexDigit(d)
    ensures forall i :: 0 <= i < width ==> HexValue(Hex(n, width)[i]).Some?
    ensures HexRun(Hex(n, width), 0) == n
    decreases width
  {
    if width > 0 {
      HexReadBack(n / 16, width - 1);
      HexDigitValue(n % 16);
      HexRunConcat(Hex(n / 16, width - 1), HexDigit(n % 16), 0);
    }
  }

  /** What "%0<width>x" prints, strtol reads. */
  lemma {:induction false} ParseHexReadBack(n: nat, width: nat)
    requires width > 0 && n < Pow16(width)
    ensures ParseHex(Hex(n, width)) == Some(n)
  {
    HexReadBack(n, width);
    var s := Hex(n, width);
    var d :| 0 <= d < 16 && s[0] == HexDigit(d);
    HexDigitValue(d);
    if width > 1 {
      var d1 :| 0 <= d1 < 16 && s[1] == HexDigit(d1);
      HexDigitValue(d1);
    }
  }

  // ---------------------------------------------------------------- strings

  lemma {:induction false} LongEscapeReadBack(c: char, rest: string, out: string)
    requires c as int < 0x20
    ensures ParseRaw("\\u" + Hex(c as int, 4) + rest, out) == ParseRaw(rest, out + [c])
  {
    hide ParseHex, Hex;
    var s := "\\u" + Hex(c as int, 4) + rest;
    assert Pow16(1) == 16 && Pow16(2) == 256 && Pow16(3) == 4096 && Pow16(4) == 65536;
    ParseHexReadBack(c as int, 4);
    assert s[2..6] == Hex(c as int, 4) && s[6..] == rest && s[0] == '\\' && s[1] == 'u';
    assert Utf8(c as int) == [c];
  }

  lemma {:induction false} EscapeReadBack(c: char, rest: string, out: string)
    ensures ParseRaw(Escape(c) + rest, out) == ParseRaw(rest, out + [c])
  {
    hide ParseHex, Hex, Utf8;
    var s := Escape(c) + rest;
    if Escape(c) == [c] {
      assert s[1..] == rest;
    } else if |Escape(c)| == 2 {
      assert s[2..] == rest;
    } else {
      LongEscapeReadBack(c, rest, out);
    }
  }

  lemma {:induction false} RawEnds(rest: string, out: string)
    ensures ParseRaw("\"" + rest, out) == Ok(out, rest)
  {
    assert ("\"" + rest)[1..] == rest;
  }

  lemma {:induction false} RawReadBack(s: string, rest: string, out: string)
    ensures ParseRaw(EscapeAll(s) + "\"" + rest, out) == Ok(out + s, rest)
    decreases |s|
  {
    hide ParseRaw, Escape;
    if s == [] {
      assert EscapeAll(s) + "\"" + rest == "\"" + rest && out + s == out;
      RawEnds(rest, out);
    } else {
      var tail := EscapeAll(s[1..]) + "\"" + rest;
      assert EscapeAll(s) + "\"" + rest == Escape(s[0]) + tail;
      EscapeReadBack(s[0], tail, out);
      RawReadBack(s[1..], rest, out + [s[0]]);
      assert out + [s[0]] + s[1..] == out + s;
    }
  }

  // ---------------------------------------------------------------- values

  /** Written values start with a visible character. */
  lemma {:induction false} DumpHead(j: Json)
    ensures Dump(j) != [] && !IsBlank(Dump(j)[0]) && Dump(j)[0] != ']'
    ensures j.Int? ==> Dump(j)[0] == '-' || IsDigit(Dump(j)[0])
  {
    if j.Int? {
      DecimalReadBack(if j.number < 0 then -j.number else j.number);
    }
  }

  lemma {:induction false} NotBlank(s: string)
    requires s != [] && !IsBlank(s[0])
    ensures SkipBlanks(s) == s
  {
  }

  lemma {:induction false} ScalarReadBack(j: Json, rest: string)
    requires Fits(j) && Boundary(rest) && !j.Array? && !j.Object?
    ensures ParseValue(Dump(j) + rest) == Ok(j, rest)
  {
    hide IntText, EscapeAll, ParseRaw, ParseNumber;
    DumpHead(j);
    var s := Dump(j) + rest;
    NotBlank(s);
    match j
    case Null => assert s[..4] == "null" && s[4..] == rest;
    case Bool(flag) =>
      if flag {
        assert s[..4] == "true" && s[4..] == rest;
      } else {
        assert s[..5] == "false" && s[5..] == rest;
      }
    case Int(n) => NumberReadBack(n, rest);
    case String(t) =>
      assert s[1..] == EscapeAll(t) + "\"" + rest;
      RawReadBack(t, rest, []);
      assert [] + t == t;
  }

  lemma {:induction false} ArrayReadBack(elements: seq<Json>, rest: string)
    requires elements != [] ==> ParseElements(DumpElements(elements) + "]" + rest, []) == Ok(Array(elements), rest)
    ensures ParseValue(Dump(Array(elements)) + rest) == Ok(Array(elements), rest)
  {
    var s := Dump(Array(elements)) + rest;
    var u := DumpElements(elements) + "]" + rest;
    NotBlank(s);
    assert s[1..] == u;
    if elements == [] {
      assert u == "]" + rest && u[1..] == rest;
    } else {
      DumpHead(elements[0]);
      assert u[0] == Dump(elements[0])[0];
    }
    NotBlank(u);
  }

  lemma {:induction false} ObjectReadBack(members: seq<Member>, rest: string)
    requires members != [] ==> ParseMembers(DumpMembers(members) + "}" + rest, []) == Ok(Object(members), rest)
    ensures ParseValue(Dump(Object(members)) + rest) == Ok(Object(members), rest)
  {
    var s := Dump(Object(members)) + rest;
    var u := DumpMembers(members) + "}" + rest;
    NotBlank(s);
    assert s[1..] == u;
    if members == [] {
      assert u == "}" + rest && u[1..] == rest;
    } else {
      assert u[0] == DumpMember(members[0])[0] == '"';
    }
    NotBlank(u);
  }

  /** `parse` undoes `dump`, whatever text follows. */
  lemma {:induction false} ValueReadBack(j: Json, rest: string)
    requires Fits(j) && Boundary(rest)
    ensures ParseValue(Dump(j) + rest) == Ok(j, rest)
    decreases j, 1
  {
    match j
    case Array(elements) =>
      if elements != [] {
        ElementsReadBack(elements, [], rest);
        assert [] + elements == elements;
      }
      ArrayReadBack(elements, rest);
    case Object(members) =>
      if members != [] {
        MembersReadBack(members, [], rest);
        assert [] + members == members;
      }
      ObjectReadBack(members, rest);
    case _ => ScalarReadBack(j, rest);
  }

  lemma {:induction false} ElementsReadBack(elements: seq<Json>, out: seq<Json>, rest: string)
    requires elements != [] && forall i :: 0 <= i < |elements| ==> Fits(elements[i])
    ensures ParseElements(DumpElements(elements) + "]" + rest, out) == Ok(Array(out + elements), rest)
    decreases elements, 0
  {
    hide Dump, ParseValue, Fits;
    var s := DumpElements(elements) + "]" + rest;
    if |elements| == 1 {
      var tail := "]" + rest;
      assert s == Dump(elements[0]) + tail;
      ValueReadBack(elements[0], tail);
      assert SkipBlanks(tail) == tail && tail[1..] == rest;
      assert out + [elements[0]] == out + elements;
    } else {
      var more := DumpElements(elements[1..]) + "]" + rest;
      var tail := "," + more;
      assert s == Dump(elements[0]) + tail;
      ValueReadBack(elements[0], tail);
      assert SkipBlanks(tail) == tail && tail[1..] == more;
      ElementsReadBack(elements[1..], out + [elements[0]], rest);
      assert out + [elements[0]] + elements[1..] == out + elements;
    }
  }

  lemma {:induction false} KeyReadBack(key: string, v: string, j: Json, rest: string)
    requires ParseValue(v) == Ok(j, rest)
    ensures ParseMember("\"" + (EscapeAll(key) + "\"" + (":" + v))) == Ok(Member(key, j), rest)
  {
    var u := ":" + v;
    var t := EscapeAll(key) + "\"" + u;
    var s := "\"" + t;
    assert s[0] == '"' && s[1..] == t;
    NotBlank(s);
    RawReadBack(key, u, []);
    assert [] + key == key;
    assert u[0] == ':' && u[1..] == v;
    NotBlank(u);
  }

  lemma {:induction false} Regroup(q: string, k: string, c: string, v: string, r: string)
    ensures q + k + q + c + v + r == q + (k + q + (c + (v + r)))
  {
    assert q + k + q + c + v + r == (q + k + q) + (c + (v + r));
  }

  lemma {:induction false} MemberText(member: Member, rest: string)
    ensures DumpMember(member) + rest ==
            "\"" + (EscapeAll(member.key) + "\"" + (":" + (Dump(member.value) + rest)))
  {
    Regroup("\"", EscapeAll(member.key), ":", Dump(member.value), rest);
  }

  lemma {:induction false} MemberReadBack(member: Member, rest: string)
    requires Fits(member.value) && Boundary(rest)
    ensures ParseMember(DumpMember(member) + rest) == Ok(member, rest)
    decreases member, 2
  {
    ValueReadBack(member.value, rest);
    MemberText(member, rest);
    KeyReadBack(member.key, Dump(member.value) + rest, member.value, rest);
  }

  lemma {:induction false} NextMember(s: string, member: Member, more: string, out: seq<Member>)
    requires ParseMember(s) == Ok(member, "," + more)
    ensures ParseMembers(s, out) == ParseMembers(more, out + [member])
  {
    var tail := "," + more;
    NotBlank(tail);
    assert tail[0] == ',' && tail[1..] == more;
  }

  lemma {:induction false} LastMember(s: string, member: Member, rest: string, out: seq<Member>)
    requires ParseMember(s) == Ok(member, "}" + rest)
    ensures ParseMembers(s, out) == Ok(Object(out + [member]), rest)
  {
    var tail := "}" + rest;
    NotBlank(tail);
    assert tail[0] == '}' && tail[1..] == rest;
  }

  /** The text of a member list, opened after its first member. */
  lemma {:induction false} MembersText(members: seq<Member>, rest: string)
    requires members != []
    ensures DumpMembers(members) + "}" + rest == DumpMember(members[0]) +
            (if |members| == 1 then "}" + rest else "," + (DumpMembers(members[1..]) + "}" + rest))
  {
    if |members| > 1 {
      assert DumpMembers(members) == DumpMember(members[0]) + "," + DumpMembers(members[1..]);
    }
  }

  lemma {:induction false} MembersReadBack(members: seq<Member>, out: seq<Member>, rest: string)
    requires members != [] && forall i :: 0 <= i < |members| ==> Fits(members[i].value)
    ensures ParseMembers(DumpMembers(members) + "}" + rest, out) == Ok(Object(out + members), rest)
    decreases members, 0
  {
    var s := DumpMembers(members) + "}" + rest;
    MembersText(members, rest);
    Regroup2(out, members);
    if |members| == 1 {
      MemberReadBack(members[0], "}" + rest);
      LastMember(s, members[0], rest, out);
    } else {
      var more := DumpMembers(members[1..]) + "}" + rest;
      MemberReadBack(members[0], "," + more);
      NextMember(s, members[0], more, out);
      MembersReadBack(members[1..], out + [members[0]], rest);
    }
  }

  lemma {:induction false} Regroup2(out: seq<Member>, members: seq<Member>)
    requires members != []
    ensures out + [members[0]] + members[1..] == out + members
    ensures |members| == 1 ==> out + [members[0]] == out + members
  {
  }

  /** JSON round trip, for every nested value without floating-point numbers and
      with arbitrary byte strings. */
  lemma {:induction false} RoundTrip(j: Json)
    requires Fits(j)
    ensures Parse(Dump(j)) == Some(j)
  {
    ValueReadBack(j, []);
    assert Dump(j) + [] == Dump(j);
  }

  // ---------------------------------------------------------------- no control bytes

  predicate Visible(s: string) {
    forall i :: 0 <= i < |s| ==> s[i] as int >= 0x20
  }

  lemma {:induction false} DecimalVisible(n: nat)
    ensures Visible(Decimal(n))
  {
    if n >= 10 {
      DecimalVisible(n / 10);
    }
  }

  lemma {:induction false} EscapeVisible(c: char)
    ensures Visible(Escape(c))
  {
    if c as int < 0x20 {
      assert Pow16(1) == 16 && Pow16(2) == 256 && Pow16(3) == 4096 && Pow16(4) == 65536;
      var h := Hex(c as int, 4);
      HexReadBack(c as int, 4);
      forall i | 0 <= i < 4
        ensures h[i] as int >= 0x20
      {
        var d :| 0 <= d < 16 && h[i] == HexDigit(d);
        HexDigitValue(d);
      }
    }
  }

  lemma {:induction false} EscapeAllVisible(s: string)
    ensures Visible(EscapeAll(s))
  {
    if s != [] {
      EscapeVisible(s[0]);
      EscapeAllVisible(s[1..]);
    }
  }

  /** A written value has no byte below 0x20, so one line of the log is one record. */
  lemma {:induction false} DumpVisible(j: Json)
    ensures Visible(Dump(j))
    decreases j, 1
  {
    match j
    case Null =>
    case Bool(_) =>
    case Int(n) => DecimalVisible(if n < 0 then -n else n);
    case String(s) => EscapeAllVisible(s);
    case Array(elements) => ElementsVisible(elements);
    case Object(members) => MembersVisible(members);
  }

  lemma {:induction false} ElementsVisible(elements: seq<Json>)
    ensures Visible(DumpElements(elements))
    decreases elements, 0
  {
    if elements != [] {
      DumpVisible(elements[0]);
      ElementsVisible(elements[1..]);
    }
  }

  lemma {:induction false} MembersVisible(members: seq<Member>)
    ensures Visible(DumpMembers(members))
    decreases members, 0
  {
    if members != [] {
      MemberVisible(members[0]);
      MembersVisible(members[1..]);
    }
  }

  lemma {:induction false} MemberVisible(member: Member)
    ensures Visible(DumpMember(member))
    decreases member, 2
  {
    EscapeAllVisible(member.key);
    DumpVisible(member.value);
  }
}
