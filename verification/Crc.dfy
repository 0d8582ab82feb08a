/** CRC-32 (include/checksum.hpp): the table-driven form against the bit-at-a-time
    definition of section 3.2.9 of IEEE 802.3, reflected, as in section 8 of RFC 1952. */
module Crc {

  const POLY: bv32 := 0xEDB88320

  // ---------------------------------------------------------------- definition

  function Xor(a: bv32, b: bv32): bv32 {
    a ^ b
  }

  function Not(a: bv32): bv32 {
    !a
  }

  function Low(a: bv32): bv32 {
    a & 0xFF
  }

  function High(a: bv32): bv32 {
    a >> 8
  }

  /** One bit through the shift register. */
  function Shift(c: bv32): bv32 {
    if c & 1 == 1 then POLY ^ (c >> 1) else c >> 1
  }

  function Shifts(c: bv32, k: nat): bv32
    decreases k
  {
    if k == 0 then c else Shifts(Shift(c), k - 1)
  }

  /** Eight binary digits, most significant first. */
  datatype Octet = Octet(b7: bool, b6: bool, b5: bool, b4: bool, b3: bool, b2: bool, b1: bool, b0: bool) {
    function Word(): bv32 {
      (if b7 then 128 else 0) | (if b6 then 64 else 0) | (if b5 then 32 else 0) | (if b4 then 16 else 0)
      | (if b3 then 8 else 0) | (if b2 then 4 else 0) | (if b1 then 2 else 0) | (if b0 then 1 else 0)
    }

    function Number(): int {
      Push(Push(Push(Push(Push(Push(Push(Push(0, b7), b6), b5), b4), b3), b2), b1), b0)
    }
  }

  function Push(v: int, one: bool): int {
    if one then 2 * v + 1 else 2 * v
  }

  /** The last eight binary digits of a number. */
  function Digits(n: nat): Octet {
    var h1 := n / 2;
    var h2 := h1 / 2;
    var h3 := h2 / 2;
    var h4 := h3 / 2;
    var h5 := h4 / 2;
    var h6 := h5 / 2;
    var h7 := h6 / 2;
    Octet(h7 % 2 == 1, h6 % 2 == 1, h5 % 2 == 1, h4 % 2 == 1, h3 % 2 == 1, h2 % 2 == 1, h1 % 2 == 1, n % 2 == 1)
  }

  /** A byte as the low end of a word. */
  function Bits(c: char): bv32 {
    Digits(c as int % 256).Word()
  }

  /** The register after a message, one byte of eight bits at a time. */
  function Register(crc: bv32, message: string): bv32
    decreases |message|
  {
    if message == [] then crc else Register(Shifts(Xor(crc, Bits(message[0])), 8), message[1..])
  }

  function Crc32(message: string, seed: bv32): bv32 {
    Not(Register(Not(seed), message))
  }

  // ---------------------------------------------------------------- one table lookup is eight shifts

  lemma {:induction false} LowBit(a: bv32)
    ensures a & 1 == 0 || a & 1 == 1
  {
  }

  lemma {:induction false} OddOdd(a: bv32, b: bv32)
    requires a & 1 == 1 && b & 1 == 1
    ensures (a ^ b) & 1 == 0 && (POLY ^ (a >> 1)) ^ (POLY ^ (b >> 1)) == (a ^ b) >> 1
  {
  }

  lemma {:induction false} OddEven(a: bv32, b: bv32)
    requires a & 1 == 1 && b & 1 == 0
    ensures (a ^ b) & 1 == 1 && (POLY ^ (a >> 1)) ^ (b >> 1) == POLY ^ ((a ^ b) >> 1)
  {
  }

  lemma {:induction false} EvenOdd(a: bv32, b: bv32)
    requires a & 1 == 0 && b & 1 == 1
    ensures (a ^ b) & 1 == 1 && (a >> 1) ^ (POLY ^ (b >> 1)) == POLY ^ ((a ^ b) >> 1)
  {
  }

  lemma {:induction false} EvenEven(a: bv32, b: bv32)
    requires a & 1 == 0 && b & 1 == 0
    ensures (a ^ b) & 1 == 0 && (a >> 1) ^ (b >> 1) == (a ^ b) >> 1
  {
  }

  lemma {:induction false} ShiftXor(a: bv32, b: bv32)
    ensures Shift(a ^ b) == Shift(a) ^ Shift(b)
  {
    LowBit(a);
    LowBit(b);
    if a & 1 == 1 {
      if b & 1 == 1 {
        OddOdd(a, b);
      } else {
        OddEven(a, b);
      }
    } else {
      if b & 1 == 1 {
        EvenOdd(a, b);
      } else {
        EvenEven(a, b);
      }
    }
  }

  /** The shift register is linear. */
  lemma {:induction false} ShiftLinear(a: bv32, b: bv32)
    ensures Shift(Xor(a, b)) == Xor(Shift(a), Shift(b))
  {
    ShiftXor(a, b);
  }

  lemma {:induction false} ShiftsLinear(a: bv32, b: bv32, k: nat)
    ensures Shifts(Xor(a, b), k) == Xor(Shifts(a, k), Shifts(b, k))
    decreases k
  {
    if k > 0 {
      ShiftLinear(a, b);
      ShiftsLinear(Shift(a), Shift(b), k - 1);
    }
  }

  predicate Linked(s: seq<bv32>) {
    forall i :: 0 <= i < |s| - 1 ==> Shift(s[i]) == s[i + 1]
  }

  lemma {:induction false} ShiftsAlong(s: seq<bv32>)
    requires s != [] && Linked(s)
    ensures Shifts(s[0], |s| - 1) == s[|s| - 1]
    decreases |s|
  {
    if |s| > 1 {
      assert Linked(s[1..]);
      ShiftsAlong(s[1..]);
    }
  }

  lemma {:induction false} ZerosOutA(h: bv32)
    requires h & 0xFF == 0
    ensures Shift(h) == h >> 1 && Shift(h >> 1) == h >> 2 && Shift(h >> 2) == h >> 3 && Shift(h >> 3) == h >> 4
  {
  }

  lemma {:induction false} ZerosOutB(h: bv32)
    requires h & 0xFF == 0
    ensures Shift(h >> 4) == h >> 5 && Shift(h >> 5) == h >> 6 && Shift(h >> 6) == h >> 7 && Shift(h >> 7) == h >> 8
  {
  }

  /** Eight zero bits just fall out. */
  lemma {:induction false} HighPart(h: bv32)
    requires h & 0xFF == 0
    ensures Shifts(h, 8) == High(h)
  {
    ZerosOutA(h);
    ZerosOutB(h);
    ShiftsAlong([h, h >> 1, h >> 2, h >> 3, h >> 4, h >> 5, h >> 6, h >> 7, h >> 8]);
  }

  function Top(x: bv32): bv32 {
    x & 0xFFFFFF00
  }

  lemma {:induction false} SplitWord(x: bv32)
    ensures x == Xor(Low(x), Top(x))
    ensures Top(x) & 0xFF == 0 && High(Top(x)) == High(x)
  {
  }

  lemma {:induction false} ByteXor(crc: bv32, b: bv32)
    requires b <= 0xFF
    ensures High(Xor(crc, b)) == High(crc)
  {
  }

  /** The entry for the low byte, combined with the rest of the word, is eight shifts of the word. */
  lemma {:induction false} TableStep(crc: bv32, b: bv32)
    requires b <= 0xFF
    ensures Xor(Shifts(Low(Xor(crc, b)), 8), High(crc)) == Shifts(Xor(crc, b), 8)
  {
    var x := Xor(crc, b);
    SplitWord(x);
    ShiftsLinear(Low(x), Top(x), 8);
    HighPart(Top(x));
    ByteXor(crc, b);
  }

  lemma {:induction false} SmallWord(y: bv32)
    requires y <= 0xFF
    ensures 0 <= y as int < 256 && (y as int) as bv32 == y
  {
  }

  lemma {:induction false} MaskedIsSmall(y: bv32)
    ensures Low(y) <= 0xFF
  {
  }

  lemma {:induction false} WordSmall(o: Octet)
    ensures o.Word() <= 0xFF
  {
  }

  lemma {:induction false} BitsSmall(c: char)
    ensures Bits(c) <= 0xFF
  {
    WordSmall(Digits(c as int % 256));
  }

  // ---------------------------------------------------------------- the program

  /** One entry of the table. */
  method TableEntry(i: bv32) returns (c: bv32)
    ensures c == Shifts(i, 8)
  {
    c := i;
    var k := 0;
    while k < 8
      invariant 0 <= k <= 8
      invariant Shifts(c, 8 - k) == Shifts(i, 8)
    {
      c := Shift(c);
      k := k + 1;
    }
  }

  /** Entry `i` is what eight shifts make of byte `i`. */
  ghost predicate TableOk(table: seq<bv32>) {
    |table| == 256 && forall i :: 0 <= i < 256 ==> table[i] == Shifts(i as bv32, 8)
  }

  method BuildTable() returns (entries: seq<bv32>)
    ensures TableOk(entries)
  {
    hide Shifts, Shift;
    var table := new bv32[256];
    var i := 0;
    while i < 256
      invariant 0 <= i <= 256
      invariant forall j :: 0 <= j < i ==> table[j] == Shifts(j as bv32, 8)
    {
      table[i] := TableEntry(i as bv32);
      i := i + 1;
    }
    entries := table[..];
  }

  method ByteStep(table: seq<bv32>, crc: bv32, c: char) returns (r: bv32)
    requires TableOk(table)
    ensures r == Shifts(Xor(crc, Bits(c)), 8)
  {
    BitsSmall(c);
    var low := Low(Xor(crc, Bits(c)));
    MaskedIsSmall(Xor(crc, Bits(c)));
    SmallWord(low);
    TableStep(crc, Bits(c));
    r := Xor(table[low as int], High(crc));
  }

  /** The table-driven loop computes the bit-at-a-time CRC of every message. */
  method ComputeCrc(message: string, seed: bv32) returns (r: bv32)
    ensures r == Crc32(message, seed)
  {
    var table := BuildTable();
    var crc := Not(seed);
    var i := 0;
    while i < |message|
      invariant i <= |message|
      invariant Register(crc, message[i..]) == Register(Not(seed), message)
    {
      assert message[i..][0] == message[i] && message[i..][1..] == message[i + 1..];
      crc := ByteStep(table, crc, message[i]);
      i := i + 1;
    }
    r := Not(crc);
  }

  // ---------------------------------------------------------------- laws

  lemma {:induction false} RegisterConcat(crc: bv32, a: string, b: string)
    ensures Register(crc, a + b) == Register(Register(crc, a), b)
    decreases |a|
  {
    if a == [] {
      assert a + b == b;
    } else {
      assert (a + b)[0] == a[0] && (a + b)[1..] == a[1..] + b;
      RegisterConcat(Shifts(Xor(crc, Bits(a[0])), 8), a[1..], b);
    }
  }

  lemma {:induction false} NotNot(x: bv32)
    ensures Not(Not(x)) == x
  {
  }

  /** Seeding with the CRC of a prefix continues it. */
  lemma {:induction false} CrcContinues(a: string, b: string, seed: bv32)
    ensures Crc32(a + b, seed) == Crc32(b, Crc32(a, seed))
  {
    RegisterConcat(Not(seed), a, b);
    NotNot(Register(Not(seed), a));
  }

  lemma {:induction false} ShiftInjective(a: bv32, b: bv32)
    requires Shift(a) == Shift(b)
    ensures a == b
  {
  }

  lemma {:induction false} ShiftsInjective(a: bv32, b: bv32, k: nat)
    requires Shifts(a, k) == Shifts(b, k)
    ensures a == b
    decreases k
  {
    if k > 0 {
      ShiftsInjective(Shift(a), Shift(b), k - 1);
      ShiftInjective(a, b);
    }
  }

  lemma {:induction false} XorInjective(a: bv32, b: bv32, c: bv32)
    ensures Xor(a, c) == Xor(b, c) ==> a == b
  {
  }

  /** Different registers stay different while the same bytes go by. */
  lemma {:induction false} RegisterInjective(x: bv32, y: bv32, message: string)
    requires x != y
    ensures Register(x, message) != Register(y, message)
    decreases |message|
  {
    if message != [] {
      var b := Bits(message[0]);
      XorInjective(x, y, b);
      if Shifts(Xor(x, b), 8) == Shifts(Xor(y, b), 8) {
        ShiftsInjective(Xor(x, b), Xor(y, b), 8);
      }
      RegisterInjective(Shifts(Xor(x, b), 8), Shifts(Xor(y, b), 8), message[1..]);
    }
  }

  lemma {:induction false} DigitsNumber(n: nat)
    requires n < 256
    ensures Digits(n).Number() == n
  {
    hide Push;
    var h1 := n / 2;
    var h2 := h1 / 2;
    var h3 := h2 / 2;
    var h4 := h3 / 2;
    var h5 := h4 / 2;
    var h6 := h5 / 2;
    PushHalf(n);
    PushHalf(h1);
    PushHalf(h2);
    PushHalf(h3);
    PushHalf(h4);
    PushHalf(h5);
    PushHalf(h6);
    PushHalf(h6 / 2);
  }

  lemma {:induction false} PushHalf(h: nat)
    ensures Push(h / 2, h % 2 == 1) == h
  {
  }

  lemma {:induction false} WordInjective(x: Octet, y: Octet)
    requires x.Word() == y.Word()
    ensures x == y
  {
  }

  lemma {:induction false} BitsInjective(c: char, d: char)
    requires c as int < 256 && d as int < 256 && c != d
    ensures Bits(c) != Bits(d)
  {
    hide Digits;
    DigitsNumber(c as int);
    DigitsNumber(d as int);
    if Bits(c) == Bits(d) {
      WordInjective(Digits(c as int), Digits(d as int));
    }
  }

  lemma {:induction false} XorCommutes(crc: bv32, a: bv32, b: bv32)
    ensures Xor(crc, a) == Xor(crc, b) ==> a == b
  {
  }

  lemma {:induction false} NotInjective(x: bv32, y: bv32)
    ensures Not(x) == Not(y) ==> x == y
  {
  }

  /** Two messages that differ in exactly one byte have different CRCs. */
  lemma {:induction false} OneByteChange(a: string, c: char, d: char, b: string, seed: bv32)
    requires c as int < 256 && d as int < 256 && c != d
    ensures Crc32(a + [c] + b, seed) != Crc32(a + [d] + b, seed)
  {
    hide Bits, Shifts, Xor, Not;
    var r := Register(Not(seed), a);
    RegisterConcat(Not(seed), a + [c], b);
    RegisterConcat(Not(seed), a, [c]);
    RegisterConcat(Not(seed), a + [d], b);
    RegisterConcat(Not(seed), a, [d]);
    BitsInjective(c, d);
    var x, y := Shifts(Xor(r, Bits(c)), 8), Shifts(Xor(r, Bits(d)), 8);
    assert Register(r, [c]) == Register(x, []) == x;
    assert Register(r, [d]) == Register(y, []) == y;
    if x == y {
      ShiftsInjective(Xor(r, Bits(c)), Xor(r, Bits(d)), 8);
      XorCommutes(r, Bits(c), Bits(d));
    }
    RegisterInjective(x, y, b);
    NotInjective(Register(x, b), Register(y, b));
  }

  // ---------------------------------------------------------------- the check value

  lemma {:induction false} EightShifts(c0: bv32, c1: bv32, c2: bv32, c3: bv32, c4: bv32, c5: bv32, c6: bv32, c7: bv32, c8: bv32)
    requires Shift(c0) == c1 && Shift(c1) == c2 && Shift(c2) == c3 && Shift(c3) == c4
    requires Shift(c4) == c5 && Shift(c5) == c6 && Shift(c6) == c7 && Shift(c7) == c8
    ensures Shifts(c0, 8) == c8
  {
    hide Shift;
    assert Shifts(c4, 4) == Shifts(c5, 3) == Shifts(c6, 2) == Shifts(c7, 1) == Shifts(c8, 0);
    assert Shifts(c0, 8) == Shifts(c1, 7) == Shifts(c2, 6) == Shifts(c3, 5) == Shifts(c4, 4);
  }

  lemma {:induction false} OneByte(crc: bv32, c: char, bits: bv32, after: bv32)
    requires Bits(c) == bits && Shifts(Xor(crc, bits), 8) == after
    ensures Register(crc, [c]) == after
  {
    hide Bits, Shifts, Xor;
    assert [c][1..] == [];
    assert Register(after, []) == after;
  }

  /** The digits '0' to '9' share their upper half. */
  lemma {:induction false} DigitBits(d: nat, b3: bool, b2: bool, b1: bool, b0: bool)
    requires d < 10 && d == (if b3 then 8 else 0) + (if b2 then 4 else 0) + (if b1 then 2 else 0) + (if b0 then 1 else 0)
    ensures Digits(48 + d) == Octet(false, false, true, true, b3, b2, b1, b0)
  {
    var d3 := if b3 then 1 else 0;
    var d2 := 2 * d3 + if b2 then 1 else 0;
    var d1 := 2 * d2 + if b1 then 1 else 0;
    assert d == 2 * d1 + if b0 then 1 else 0;
    assert (48 + d) / 2 == 24 + d1 && (24 + d1) / 2 == 12 + d2 && (12 + d2) / 2 == 6 + d3 && (6 + d3) / 2 == 3;
  }

  lemma {:induction false} DigitWord(c: char, b3: bool, b2: bool, b1: bool, b0: bool, word: bv32)
    requires c as int < 256 && Digits(c as int) == Octet(false, false, true, true, b3, b2, b1, b0)
    requires word == Octet(false, false, true, true, b3, b2, b1, b0).Word()
    ensures Bits(c) == word
  {
    hide Digits;
  }

  lemma {:induction false} FirstDigits()
    ensures Register(0xFFFFFFFF, "123") == 0x77B79C2D
  {
    hide Register, Bits, Shifts, Digits;
    EightShifts(0xFFFFFFCE, 0x7FFFFFE7, 0xD2477CD3, 0x849B3D49, 0xAFF51D84, 0x57FA8EC2, 0x2BFD4761, 0xF8462090, 0x7C231048);
    DigitBits(1, false, false, false, true);
    DigitWord('1', false, false, false, true, 0x31);
    OneByte(0xFFFFFFFF, '1', 0x31, 0x7C231048);
    EightShifts(0x7C23107A, 0x3E11883D, 0xF2B0473E, 0x7958239F, 0xD11492EF, 0x8532CA57, 0xAF21E60B, 0xBA287025, 0xB0ACBB32);
    DigitBits(2, false, false, true, false);
    DigitWord('2', false, false, true, false, 0x32);
    OneByte(0x7C231048, '2', 0x32, 0xB0ACBB32);
    EightShifts(0xB0ACBB01, 0xB5EEDEA0, 0x5AF76F50, 0x2D7BB7A8, 0x16BDDBD4, 0x0B5EEDEA, 0x05AF76F5, 0xEF6F385A, 0x77B79C2D);
    DigitBits(3, false, false, true, true);
    DigitWord('3', false, false, true, true, 0x33);
    OneByte(0xB0ACBB32, '3', 0x33, 0x77B79C2D);
    RegisterConcat(0xFFFFFFFF, "1", "2");
    RegisterConcat(0xFFFFFFFF, "12", "3");
    assert "1" + "2" == "12" && "12" + "3" == "123";
  }

  lemma {:induction false} MiddleDigits()
    ensures Register(0x77B79C2D, "456") == 0xF68D2C9E
  {
    hide Register, Bits, Shifts, Digits;
    EightShifts(0x77B79C19, 0xD6634D2C, 0x6B31A696, 0x3598D34B, 0xF774EA85, 0x9602F662, 0x4B017B31, 0xC8383EB8, 0x641C1F5C);
    DigitBits(4, false, true, false, false);
    DigitWord('4', false, true, false, false, 0x34);
    OneByte(0x77B79C2D, '4', 0x34, 0x641C1F5C);
    EightShifts(0x641C1F69, 0xDFB68C94, 0x6FDB464A, 0x37EDA325, 0xF64E52B2, 0x7B272959, 0xD02B178C, 0x68158BC6, 0x340AC5E3);
    DigitBits(5, false, true, false, true);
    DigitWord('5', false, true, false, true, 0x35);
    OneByte(0x641C1F5C, '5', 0x35, 0x340AC5E3);
    EightShifts(0x340AC5D5, 0xF7BDE1CA, 0x7BDEF0E5, 0xD057FB52, 0x682BFDA9, 0xD9AD7DF4, 0x6CD6BEFA, 0x366B5F7D, 0xF68D2C9E);
    DigitBits(6, false, true, true, false);
    DigitWord('6', false, true, true, false, 0x36);
    OneByte(0x340AC5E3, '6', 0x36, 0xF68D2C9E);
    RegisterConcat(0x77B79C2D, "4", "5");
    RegisterConcat(0x77B79C2D, "45", "6");
    assert "4" + "5" == "45" && "45" + "6" == "456";
  }

  lemma {:induction false} LastDigits()
    ensures Register(0xF68D2C9E, "789") == 0x340BC6D9
  {
    hide Register, Bits, Shifts, Digits;
    EightShifts(0xF68D2CA9, 0x96FE1574, 0x4B7F0ABA, 0x25BF855D, 0xFF67418E, 0x7FB3A0C7, 0xD2615343, 0x84882A81, 0xAFFC9660);
    DigitBits(7, false, true, true, true);
    DigitWord('7', false, true, true, true, 0x37);
    OneByte(0xF68D2C9E, '7', 0x37, 0xAFFC9660);
    EightShifts(0xAFFC9658, 0x57FE4B2C, 0x2BFF2596, 0x15FF92CB, 0xE7474A45, 0x9E1B2602, 0x4F0D9301, 0xCA3E4AA0, 0x651F2550);
    DigitBits(8, true, false, false, false);
    DigitWord('8', true, false, false, false, 0x38);
    OneByte(0xAFFC9660, '8', 0x38, 0x651F2550);
    EightShifts(0x651F2569, 0xDF371194, 0x6F9B88CA, 0x37CDC465, 0xF65E6112, 0x7B2F3089, 0xD02F1B64, 0x68178DB2, 0x340BC6D9);
    DigitBits(9, true, false, false, true);
    DigitWord('9', true, false, false, true, 0x39);
    OneByte(0x651F2550, '9', 0x39, 0x340BC6D9);
    RegisterConcat(0xF68D2C9E, "7", "8");
    RegisterConcat(0xF68D2C9E, "78", "9");
    assert "7" + "8" == "78" && "78" + "9" == "789";
  }

  // ---------------------------------------------------------------- as a number

  /** The checksum as the unsigned number that is printed and sent. */
  function Checksum(message: string): (n: nat)
    ensures n < 0x1_0000_0000
  {
    Crc32(message, 0) as int
  }

  lemma {:induction false} WordAsInt(x: bv32)
    ensures (x as int) as bv32 == x
  {
  }

  lemma {:induction false} OneByteChecksum(a: string, c: char, d: char, b: string)
    requires c as int < 256 && d as int < 256 && c != d
    ensures Checksum(a + [c] + b) != Checksum(a + [d] + b)
  {
    OneByteChange(a, c, d, b, 0);
    WordAsInt(Crc32(a + [c] + b, 0));
    WordAsInt(Crc32(a + [d] + b, 0));
  }

  /** The check value of CRC-32. */
  lemma {:induction false} CheckValue()
    ensures Crc32("123456789", 0) == 0xCBF43926 && Checksum("123456789") == 0xCBF43926
  {
    hide Register;
    FirstDigits();
    MiddleDigits();
    LastDigits();
    RegisterConcat(0xFFFFFFFF, "123", "456");
    RegisterConcat(0xFFFFFFFF, "123456", "789");
    assert "123" + "456" == "123456" && "123456" + "789" == "123456789";
  }
}
