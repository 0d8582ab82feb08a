/** The wire format (src/protocol.cpp): big-endian fields, packed commands and
    checksummed frames.  None stands for an exception. */
module Protocol {
  import opened Orders
  import opened Crc

  // ---------------------------------------------------------------- big-endian numbers

  function Byte(c: char): (b: nat)
    ensures b < 256
  {
    c as int % 256
  }

  function Char(b: nat): (c: char)
    ensures Byte(c) == b % 256 && c as int < 256
  {
    (b % 256) as char
  }

  function Pow256(k: nat): (p: nat)
    ensures p > 0
  {
    if k == 0 then 1 else 256 * Pow256(k - 1)
  }

  function BigEndian(v: nat, width: nat): (s: string)
    ensures |s| == width
  {
    if width == 0 then [] else BigEndian(v / 256, width - 1) + [Char(v)]
  }

  function Value(s: string): nat {
    if s == [] then 0 else Value(s[..|s| - 1]) * 256 + Byte(s[|s| - 1])
  }

  lemma {:induction false} ValueReadsBack(v: nat, width: nat)
    requires v < Pow256(width)
    ensures Value(BigEndian(v, width)) == v
    decreases width
  {
    if width > 0 {
      ValueReadsBack(v / 256, width - 1);
      var s := BigEndian(v, width);
      assert s[..width - 1] == BigEndian(v / 256, width - 1);
    }
  }

  lemma {:induction false} Pow256Is()
    ensures Pow256(4) == 0x1_0000_0000 && Pow256(8) == 0x1_0000_0000_0000_0000
  {
    assert Pow256(1) == 256 && Pow256(2) == 65536 && Pow256(3) == 16777216;
    assert Pow256(4) == 0x1_0000_0000;
    assert Pow256(5) == 256 * Pow256(4) && Pow256(6) == 256 * Pow256(5);
    assert Pow256(7) == 256 * Pow256(6) && Pow256(8) == 256 * Pow256(7);
  }

  /** Conversion between signed and unsigned 64-bit integers. */
  function ToUnsigned(n: int): (u: nat)
    ensures u < 0x1_0000_0000_0000_0000
  {
    n % 0x1_0000_0000_0000_0000
  }

  function ToSigned(u: nat): int {
    if u >= 0x8000_0000_0000_0000 then u - 0x1_0000_0000_0000_0000 else u
  }

  function Put64(n: int): (s: string)
    ensures |s| == 8
  {
    BigEndian(ToUnsigned(n), 8)
  }

  function Get64(s: string): int {
    ToSigned(Value(s))
  }

  lemma {:induction false} Get64ReadsBack(n: int)
    requires Fits64(n)
    ensures Get64(Put64(n)) == n
  {
    hide BigEndian, Value;
    Pow256Is();
    ValueReadsBack(ToUnsigned(n), 8);
  }

  // ---------------------------------------------------------------- codes

  function TifCode(tif: TimeInForce): nat {
    match tif
    case Gtc => 1
    case Ioc => 2
    case Fok => 3
    case Market => 4
  }

  function CodeTif(code: nat): Option<TimeInForce> {
    if code == 1 then Some(Gtc) else if code == 2 then Some(Ioc)
    else if code == 3 then Some(Fok) else if code == 4 then Some(Market) else None
  }

  function StpCode(stp: SelfTradePrevention): nat {
    match stp
    case Allow => 0
    case CancelAggressor => 1
    case CancelPassive => 2
    case CancelBoth => 3
  }

  function CodeStp(code: nat): Option<SelfTradePrevention> {
    if code == 0 then Some(Allow) else if code == 1 then Some(CancelAggressor)
    else if code == 2 then Some(CancelPassive) else if code == 3 then Some(CancelBoth) else None
  }

  // ---------------------------------------------------------------- packing

  const MAX_NAME := 255
  const MAX_ADD := 4096

  function PackAdd(c: AddOrder): Option<string> {
    if |c.symbol| > MAX_NAME || |c.participant| > MAX_NAME then None else
    Some([Char(|c.symbol|), Char(|c.participant|), Char(if c.side == Buy then 1 else 2),
          Char(TifCode(c.tif)), Char(StpCode(c.stp))]
         + Put64(c.orderId) + Put64(c.price) + Put64(c.quantity) + c.symbol + c.participant)
  }

  function UnpackAdd(s: string): Option<AddOrder> {
    if |s| < 29 || |s| > MAX_ADD then None else
    var n, m := Byte(s[0]), Byte(s[1]);
    if |s| < 29 + n + m then None else
    var tif, stp := CodeTif(Byte(s[3])), CodeStp(Byte(s[4]));
    if tif.None? || stp.None? then None else
    Some(AddOrder(s[29..29 + n], Get64(s[5..13]), s[29 + n..29 + n + m],
                  if Byte(s[2]) == 1 then Buy else Sell, Get64(s[13..21]), Get64(s[21..29]), tif.value, stp.value))
  }

  function PackCancel(c: CancelOrder): Option<string> {
    if |c.symbol| > MAX_NAME then None else Some([Char(|c.symbol|)] + Put64(c.orderId) + c.symbol)
  }

  function UnpackCancel(s: string): Option<CancelOrder> {
    if |s| < 9 then None else
    var n := Byte(s[0]);
    if |s| < 9 + n then None else Some(CancelOrder(s[9..9 + n], Get64(s[1..9])))
  }

  function PackReplace(c: ReplaceOrder): Option<string> {
    if |c.symbol| > MAX_NAME then None else
    Some([Char(|c.symbol|), Char(TifCode(c.tif))] + Put64(c.orderId) + Put64(c.newOrderId)
         + Put64(c.newPrice) + Put64(c.newQuantity) + c.symbol)
  }

  function UnpackReplace(s: string): Option<ReplaceOrder> {
    if |s| < 34 then None else
    var n := Byte(s[0]);
    if |s| < 34 + n then None else
    var tif := CodeTif(Byte(s[1]));
    if tif.None? then None else
    Some(ReplaceOrder(s[34..34 + n], Get64(s[2..10]), Get64(s[10..18]), Get64(s[18..26]), Get64(s[26..34]), tif.value))
  }

  // ---------------------------------------------------------------- frames

  const ADD := 1
  const CANCEL := 2
  const REPLACE := 3
  const EVENT := 10

  /** kind, length, payload, checksum */
  function FrameWith(kind: nat, payload: string, crc: nat): string {
    [Char(kind)] + BigEndian(|payload| % 0x1_0000_0000, 4) + payload + BigEndian(crc, 4)
  }

  function Frame(kind: nat, payload: string): string {
    FrameWith(kind, payload, Checksum(payload))
  }

  datatype Parsed = Incomplete | Corrupt | Whole(kind: nat, payload: string, size: nat)

  /** The frame at the head of some bytes. */
  function Deframe(data: string): (r: Parsed)
    ensures r.Whole? ==> 9 <= r.size <= |data|
  {
    if |data| < 5 then Incomplete else
    var n := Value(data[1..5]);
    if |data| - 5 < n + 4 then Incomplete else
    var body := data[5..5 + n];
    if Checksum(body) != Value(data[5 + n..9 + n]) then Corrupt
    else Whole(Byte(data[0]), body, 9 + n)
  }

  function EncodeCommand(command: Command): Option<string> {
    match command
    case Add(c) => var p := PackAdd(c); if p.None? then None else Some(Frame(ADD, p.value))
    case Cancel(c) => var p := PackCancel(c); if p.None? then None else Some(Frame(CANCEL, p.value))
    case Replace(c) => var p := PackReplace(c); if p.None? then None else Some(Frame(REPLACE, p.value))
  }

  function DecodeCommand(kind: nat, payload: string): Option<Command> {
    if kind == ADD then
      var c := UnpackAdd(payload);
      if c.None? then None else Some(Add(c.value))
    else if kind == CANCEL then
      var c := UnpackCancel(payload);
      if c.None? then None else Some(Cancel(c.value))
    else if kind == REPLACE then
      var c := UnpackReplace(payload);
      if c.None? then None else Some(Replace(c.value))
    else None
  }

  // ---------------------------------------------------------------- round trips

  /** The names a command may carry on the wire. */
  predicate NamesFit(command: Command) {
    match command
    case Add(c) => |c.symbol| <= MAX_NAME && |c.participant| <= MAX_NAME
    case Cancel(c) => |c.symbol| <= MAX_NAME
    case Replace(c) => |c.symbol| <= MAX_NAME
  }

  lemma {:induction false} AddSlices(head: string, a: string, b: string, d: string, symbol: string, participant: string)
    requires |head| == 5 && |a| == |b| == |d| == 8
    ensures var s := head + a + b + d + symbol + participant;
            && |s| == 29 + |symbol| + |participant|
            && (forall i :: 0 <= i < 5 ==> s[i] == head[i])
            && s[5..13] == a && s[13..21] == b && s[21..29] == d
            && s[29..29 + |symbol|] == symbol
            && s[29 + |symbol|..29 + |symbol| + |participant|] == participant
  {
  }

  lemma {:induction false} AddReadsBack(c: AddOrder)
    requires CommandFits(Add(c)) && NamesFit(Add(c))
    ensures PackAdd(c).Some? && UnpackAdd(PackAdd(c).value) == Some(c) && |PackAdd(c).value| <= MAX_ADD
  {
    hide Put64, Get64, Byte, Char, TifCode, StpCode, CodeTif, CodeStp;
    var head := [Char(|c.symbol|), Char(|c.participant|), Char(if c.side == Buy then 1 else 2),
                 Char(TifCode(c.tif)), Char(StpCode(c.stp))];
    AddSlices(head, Put64(c.orderId), Put64(c.price), Put64(c.quantity), c.symbol, c.participant);
    CodesReadBack(c.tif, c.stp);
    Get64ReadsBack(c.orderId);
    Get64ReadsBack(c.price);
    Get64ReadsBack(c.quantity);
  }

  lemma {:induction false} CodesReadBack(tif: TimeInForce, stp: SelfTradePrevention)
    ensures TifCode(tif) < 256 && CodeTif(TifCode(tif)) == Some(tif)
    ensures StpCode(stp) < 256 && CodeStp(StpCode(stp)) == Some(stp)
  {
  }

  lemma {:induction false} CancelReadsBack(c: CancelOrder)
    requires CommandFits(Cancel(c)) && NamesFit(Cancel(c))
    ensures PackCancel(c).Some? && UnpackCancel(PackCancel(c).value) == Some(c) && |PackCancel(c).value| <= MAX_ADD
  {
    hide Put64, Get64, Byte, Char;
    var s := PackCancel(c).value;
    assert s[1..9] == Put64(c.orderId) && s[9..9 + |c.symbol|] == c.symbol;
    Get64ReadsBack(c.orderId);
  }

  lemma {:induction false} ReplaceReadsBack(c: ReplaceOrder)
    requires CommandFits(Replace(c)) && NamesFit(Replace(c))
    ensures PackReplace(c).Some? && UnpackReplace(PackReplace(c).value) == Some(c) && |PackReplace(c).value| <= MAX_ADD
  {
    hide Put64, Get64, Byte, Char;
    var s := PackReplace(c).value;
    assert s[2..10] == Put64(c.orderId) && s[10..18] == Put64(c.newOrderId);
    assert s[18..26] == Put64(c.newPrice) && s[26..34] == Put64(c.newQuantity);
    assert s[34..34 + |c.symbol|] == c.symbol;
    Get64ReadsBack(c.orderId);
    Get64ReadsBack(c.newOrderId);
    Get64ReadsBack(c.newPrice);
    Get64ReadsBack(c.newQuantity);
  }

  /** A command whose names fit is encoded, and only such a command. */
  lemma {:induction false} CommandReadsBack(command: Command)
    requires CommandFits(command)
    ensures EncodeCommand(command).Some? <==> NamesFit(command)
    ensures NamesFit(command) ==>
              exists kind, payload :: EncodeCommand(command) == Some(Frame(kind, payload))
                && kind < 256 && kind != EVENT && |payload| <= MAX_ADD && DecodeCommand(kind, payload) == Some(command)
  {
    hide Frame, PackAdd, PackCancel, PackReplace, UnpackAdd, UnpackCancel, UnpackReplace;
    if NamesFit(command) {
      match command
      case Add(c) =>
        AddReadsBack(c);
        assert EncodeCommand(command) == Some(Frame(ADD, PackAdd(c).value));
      case Cancel(c) =>
        CancelReadsBack(c);
        assert EncodeCommand(command) == Some(Frame(CANCEL, PackCancel(c).value));
      case Replace(c) =>
        ReplaceReadsBack(c);
        assert EncodeCommand(command) == Some(Frame(REPLACE, PackReplace(c).value));
    } else {
      PackRefuses(command);
    }
  }

  lemma {:induction false} PackRefuses(command: Command)
    requires !NamesFit(command)
    ensures EncodeCommand(command).None?
  {
  }

  lemma {:induction false} FrameShape(kind: nat, payload: string, crc: nat, rest: string)
    requires |payload| < 0x1_0000_0000 && crc < 0x1_0000_0000
    ensures var data, n := FrameWith(kind, payload, crc) + rest, |payload|;
            && |data| == 9 + n + |rest| && Byte(data[0]) == kind % 256 && Value(data[1..5]) == n
            && data[5..5 + n] == payload && Value(data[5 + n..9 + n]) == crc && data[9 + n..] == rest
  {
    hide BigEndian, Value;
    var a, b := BigEndian(|payload|, 4), BigEndian(crc, 4);
    Pow256Is();
    ValueReadsBack(|payload|, 4);
    ValueReadsBack(crc, 4);
    FrameSlices(Char(kind), a, payload, b, rest);
  }

  lemma {:induction false} FrameSlices(c: char, a: string, payload: string, b: string, rest: string)
    requires |a| == |b| == 4
    ensures var data, n := [c] + a + payload + b + rest, |payload|;
            && |data| == 9 + n + |rest| && data[0] == c && data[1..5] == a
            && data[5..5 + n] == payload && data[5 + n..9 + n] == b && data[9 + n..] == rest
  {
  }

  /** A frame is read back whole, whatever follows it. */
  lemma {:induction false} FrameReadsBack(kind: nat, payload: string, rest: string)
    requires kind < 256 && |payload| < 0x1_0000_0000
    ensures Deframe(Frame(kind, payload) + rest) == Whole(kind, payload, 9 + |payload|)
    ensures |Frame(kind, payload)| == 9 + |payload|
  {
    hide Value, Checksum, FrameWith;
    FrameShape(kind, payload, Checksum(payload), rest);
    FrameShape(kind, payload, Checksum(payload), []);
    assert FrameWith(kind, payload, Checksum(payload)) + [] == FrameWith(kind, payload, Checksum(payload));
  }

  /** One changed payload byte, anywhere, is detected. */
  lemma {:induction false} ChangedByteRejected(kind: nat, a: string, c: char, d: char, b: string, rest: string)
    requires |a| + 1 + |b| < 0x1_0000_0000 && c as int < 256 && d as int < 256 && c != d
    ensures Deframe(FrameWith(kind, a + [d] + b, Checksum(a + [c] + b)) + rest) == Corrupt
  {
    hide Value, Checksum, FrameWith;
    OneByteChecksum(a, c, d, b);
    FrameShape(kind, a + [d] + b, Checksum(a + [c] + b), rest);
  }
}
