/** The wire format byte by byte: where each field of a packed command and of a frame
    lies, which payloads are accepted, and what a session does with a frame of each kind. */
module WireLaws {
  import opened Orders
  import opened Crc
  import opened Protocol
  import opened Session

  // ---------------------------------------------------------------- fields

  function ByteAt(s: string, i: nat): int
    requires i < |s|
  {
    s[i] as int % 256
  }

  /** The four bytes from `at`, most significant first. */
  function Field32(s: string, at: nat): int
    requires at + 4 <= |s|
  {
    ByteAt(s, at) * 0x100_0000 + ByteAt(s, at + 1) * 0x1_0000 + ByteAt(s, at + 2) * 0x100 + ByteAt(s, at + 3)
  }

  /** The eight bytes from `at` hold `n` in two's complement, most significant byte first. */
  predicate Holds64(s: string, at: nat, n: int)
    requires at + 8 <= |s|
  {
    n % 0x1_0000_0000_0000_0000 == Field32(s, at) * 0x1_0000_0000 + Field32(s, at + 4)
  }

  lemma {:induction false} ValueConcat(a: string, b: string)
    ensures Value(a + b) == Value(a) * Pow256(|b|) + Value(b)
    decreases |b|
  {
    if b == [] {
      assert a + b == a;
    } else {
      var init := b[..|b| - 1];
      assert (a + b)[..|a + b| - 1] == a + init;
      ValueConcat(a, init);
      assert Value(a) * Pow256(|b|) == Value(a) * Pow256(|init|) * 256;
    }
  }

  lemma {:induction false} ValueOfFour(s: string)
    requires |s| == 4
    ensures Value(s) == Field32(s, 0)
  {
    hide Byte;
    var a, b, c := s[..1], s[..2], s[..3];
    assert a[..0] == [] && b[..1] == a && c[..2] == b;
    assert Value(a) == Byte(s[0]) && Value(b) == Value(a) * 256 + Byte(s[1]);
    assert Value(c) == Value(b) * 256 + Byte(s[2]) && Value(s) == Value(c) * 256 + Byte(s[3]);
    BytesAre(s);
  }

  lemma {:induction false} BytesAre(s: string)
    ensures forall i :: 0 <= i < |s| ==> Byte(s[i]) == ByteAt(s, i)
  {
  }

  lemma {:induction false} SliceField(s: string, at: nat)
    requires at + 4 <= |s|
    ensures Value(s[at..at + 4]) == Field32(s, at)
  {
    ValueOfFour(s[at..at + 4]);
  }

  lemma {:induction false} SliceWord(s: string, at: nat)
    requires at + 8 <= |s|
    ensures Value(s[at..at + 8]) == Field32(s, at) * 0x1_0000_0000 + Field32(s, at + 4)
    ensures 0 <= Value(s[at..at + 8]) < 0x1_0000_0000_0000_0000
  {
    hide Value;
    Pow256Is();
    SliceField(s, at);
    SliceField(s, at + 4);
    ValueConcat(s[at..at + 4], s[at + 4..at + 8]);
    assert s[at..at + 8] == s[at..at + 4] + s[at + 4..at + 8];
  }

  lemma {:induction false} PutHolds(s: string, at: nat, n: int)
    requires at + 8 <= |s| && s[at..at + 8] == Put64(n)
    ensures Holds64(s, at, n)
  {
    hide Value, BigEndian, Field32;
    Pow256Is();
    SliceWord(s, at);
    ValueReadsBack(ToUnsigned(n), 8);
  }

  lemma {:induction false} GetHolds(s: string, at: nat)
    requires at + 8 <= |s|
    ensures Holds64(s, at, Get64(s[at..at + 8])) && Fits64(Get64(s[at..at + 8]))
  {
    hide Value, Field32;
    SliceWord(s, at);
  }

  // ---------------------------------------------------------------- commands

  function TifNumber(tif: TimeInForce): int {
    match tif case Gtc => 1 case Ioc => 2 case Fok => 3 case Market => 4
  }

  function StpNumber(stp: SelfTradePrevention): int {
    match stp case Allow => 0 case CancelAggressor => 1 case CancelPassive => 2 case CancelBoth => 3
  }

  /** An add: five bytes, three numbers, two names. */
  predicate AddLaidOut(s: string, c: AddOrder) {
    var n, m := |c.symbol|, |c.participant|;
    && |s| >= 29 + n + m
    && ByteAt(s, 0) == n && ByteAt(s, 1) == m && (ByteAt(s, 2) == 1 <==> c.side == Buy)
    && ByteAt(s, 3) == TifNumber(c.tif) && ByteAt(s, 4) == StpNumber(c.stp)
    && Holds64(s, 5, c.orderId) && Holds64(s, 13, c.price) && Holds64(s, 21, c.quantity)
    && s[29..29 + n] == c.symbol && s[29 + n..29 + n + m] == c.participant
  }

  predicate CancelLaidOut(s: string, c: CancelOrder) {
    var n := |c.symbol|;
    |s| >= 9 + n && ByteAt(s, 0) == n && Holds64(s, 1, c.orderId) && s[9..9 + n] == c.symbol
  }

  predicate ReplaceLaidOut(s: string, c: ReplaceOrder) {
    var n := |c.symbol|;
    && |s| >= 34 + n && ByteAt(s, 0) == n && ByteAt(s, 1) == TifNumber(c.tif)
    && Holds64(s, 2, c.orderId) && Holds64(s, 10, c.newOrderId) && Holds64(s, 18, c.newPrice) && Holds64(s, 26, c.newQuantity)
    && s[34..34 + n] == c.symbol
  }

  lemma {:induction false} CharIs(b: nat)
    requires b < 256
    ensures Char(b) as int % 256 == b
  {
  }

  lemma {:induction false} NumbersAre(tif: TimeInForce, stp: SelfTradePrevention)
    ensures TifCode(tif) == TifNumber(tif) < 256 && StpCode(stp) == StpNumber(stp) < 256
  {
  }

  /** Packing an add succeeds unless a name exceeds 255 bytes, and fills exactly its layout. */
  lemma {:induction false} AddPacked(c: AddOrder)
    ensures PackAdd(c).Some? <==> |c.symbol| <= 255 && |c.participant| <= 255
    ensures PackAdd(c).Some? ==>
              var s := PackAdd(c).value;
              && AddLaidOut(s, c) && |s| == 29 + |c.symbol| + |c.participant|
              && ByteAt(s, 2) == if c.side == Buy then 1 else 2
  {
    hide Put64, Char, Holds64, TifCode, StpCode, TifNumber, StpNumber;
    if PackAdd(c).Some? {
      var s := PackAdd(c).value;
      var side := if c.side == Buy then 1 else 2;
      var head := [Char(|c.symbol|), Char(|c.participant|), Char(side), Char(TifCode(c.tif)), Char(StpCode(c.stp))];
      AddSlices(head, Put64(c.orderId), Put64(c.price), Put64(c.quantity), c.symbol, c.participant);
      NumbersAre(c.tif, c.stp);
      CharIs(|c.symbol|);
      CharIs(|c.participant|);
      CharIs(side);
      CharIs(TifCode(c.tif));
      CharIs(StpCode(c.stp));
      assert s == head + Put64(c.orderId) + Put64(c.price) + Put64(c.quantity) + c.symbol + c.participant;
      PutHolds(s, 5, c.orderId);
      PutHolds(s, 13, c.price);
      PutHolds(s, 21, c.quantity);
    }
  }

  /** Unpacking accepts an add when it has 29 to 4096 bytes, room for its names, and known codes. */
  lemma {:induction false} AddUnpacked(s: string)
    ensures UnpackAdd(s).Some? <==>
              && 29 <= |s| <= 4096 && |s| >= 29 + ByteAt(s, 0) + ByteAt(s, 1)
              && 1 <= ByteAt(s, 3) <= 4 && ByteAt(s, 4) <= 3
    ensures UnpackAdd(s).Some? ==> AddLaidOut(s, UnpackAdd(s).value) && CommandFits(Add(UnpackAdd(s).value))
  {
    hide Get64, Holds64, Fits64;
    if 29 <= |s| <= 4096 {
      BytesAre(s);
      GetHolds(s, 5);
      GetHolds(s, 13);
      GetHolds(s, 21);
    }
  }

  lemma {:induction false} CancelPacked(c: CancelOrder)
    ensures PackCancel(c).Some? <==> |c.symbol| <= 255
    ensures PackCancel(c).Some? ==> CancelLaidOut(PackCancel(c).value, c) && |PackCancel(c).value| == 9 + |c.symbol|
  {
    hide Put64, Char, Holds64;
    if PackCancel(c).Some? {
      var s := PackCancel(c).value;
      assert s[1..9] == Put64(c.orderId) && s[9..9 + |c.symbol|] == c.symbol && s[0] == Char(|c.symbol|);
      CharIs(|c.symbol|);
      PutHolds(s, 1, c.orderId);
    }
  }

  lemma {:induction false} CancelUnpacked(s: string)
    ensures UnpackCancel(s).Some? <==> |s| >= 9 && |s| >= 9 + ByteAt(s, 0)
    ensures UnpackCancel(s).Some? ==> CancelLaidOut(s, UnpackCancel(s).value) && CommandFits(Cancel(UnpackCancel(s).value))
  {
    hide Get64, Holds64, Fits64;
    if |s| >= 9 {
      BytesAre(s);
      GetHolds(s, 1);
    }
  }

  lemma {:induction false} ReplacePacked(c: ReplaceOrder)
    ensures PackReplace(c).Some? <==> |c.symbol| <= 255
    ensures PackReplace(c).Some? ==> ReplaceLaidOut(PackReplace(c).value, c) && |PackReplace(c).value| == 34 + |c.symbol|
  {
    hide Put64, Char, Holds64, TifCode, TifNumber;
    if PackReplace(c).Some? {
      var s := PackReplace(c).value;
      assert s[2..10] == Put64(c.orderId) && s[10..18] == Put64(c.newOrderId);
      assert s[18..26] == Put64(c.newPrice) && s[26..34] == Put64(c.newQuantity);
      assert s[34..34 + |c.symbol|] == c.symbol && s[0] == Char(|c.symbol|) && s[1] == Char(TifCode(c.tif));
      NumbersAre(c.tif, Allow);
      CharIs(|c.symbol|);
      CharIs(TifCode(c.tif));
      PutHolds(s, 2, c.orderId);
      PutHolds(s, 10, c.newOrderId);
      PutHolds(s, 18, c.newPrice);
      PutHolds(s, 26, c.newQuantity);
    }
  }

  lemma {:induction false} ReplaceUnpacked(s: string)
    ensures UnpackReplace(s).Some? <==> |s| >= 34 && |s| >= 34 + ByteAt(s, 0) && 1 <= ByteAt(s, 1) <= 4
    ensures UnpackReplace(s).Some? ==> ReplaceLaidOut(s, UnpackReplace(s).value) && CommandFits(Replace(UnpackReplace(s).value))
  {
    hide Get64, Holds64, Fits64;
    if |s| >= 34 {
      BytesAre(s);
      GetHolds(s, 2);
      GetHolds(s, 10);
      GetHolds(s, 18);
      GetHolds(s, 26);
    }
  }

  // ---------------------------------------------------------------- frames

  /** One byte of kind, four of length, the payload, four of checksum. */
  predicate FrameLaidOut(data: string, kind: nat, payload: string) {
    var n := |payload|;
    && |data| >= 9 + n && ByteAt(data, 0) == kind && Field32(data, 1) == n
    && data[5..5 + n] == payload && Field32(data, 5 + n) == Checksum(payload)
  }

  lemma {:induction false} FrameWritten(kind: nat, payload: string)
    requires kind < 256 && |payload| < 0x1_0000_0000
    ensures FrameLaidOut(Frame(kind, payload), kind, payload) && |Frame(kind, payload)| == 9 + |payload|
  {
    hide Value, Checksum, FrameWith, Field32;
    var data := Frame(kind, payload);
    FrameShape(kind, payload, Checksum(payload), []);
    assert data + [] == data;
    BytesAre(data);
    SliceField(data, 1);
    SliceField(data, 5 + |payload|);
  }

  /** A frame is read once its length says that it is complete, and only if its checksum is right. */
  lemma {:induction false} FrameRead(data: string)
    ensures var r, complete := Deframe(data), |data| >= 9 && |data| >= 9 + Field32(data, 1);
            && (r.Incomplete? <==> !complete)
            && (complete ==> 0 <= Field32(data, 1))
            && (r.Corrupt? <==> complete && Checksum(data[5..5 + Field32(data, 1)]) != Field32(data, 5 + Field32(data, 1)))
            && (r.Whole? ==> FrameLaidOut(data, r.kind, r.payload) && r.size == 9 + |r.payload|)
  {
    hide Value, Checksum, Field32;
    if |data| >= 5 {
      SliceField(data, 1);
      var n := Value(data[1..5]);
      BytesAre(data);
      if |data| >= 9 + n {
        SliceField(data, 5 + n);
      }
    }
  }

  /** `kind` and `payload` say `command`: an add is 1, a cancel 2, a replacement 3. */
  predicate Says(kind: nat, payload: string, command: Command) {
    match command
    case Add(c) => kind == 1 && AddLaidOut(payload, c)
    case Cancel(c) => kind == 2 && CancelLaidOut(payload, c)
    case Replace(c) => kind == 3 && ReplaceLaidOut(payload, c)
  }

  lemma {:induction false} CommandWritten(command: Command)
    ensures EncodeCommand(command).Some? ==>
              exists kind, payload ::
                && EncodeCommand(command) == Some(Frame(kind, payload)) && |payload| <= 4096
                && Says(kind, payload, command) && FrameLaidOut(Frame(kind, payload), kind, payload)
  {
    hide Frame, PackAdd, PackCancel, PackReplace, AddLaidOut, CancelLaidOut, ReplaceLaidOut, FrameLaidOut;
    if EncodeCommand(command).Some? {
      match command
      case Add(c) =>
        AddPacked(c);
        FrameWritten(1, PackAdd(c).value);
        assert Says(1, PackAdd(c).value, command);
      case Cancel(c) =>
        CancelPacked(c);
        FrameWritten(2, PackCancel(c).value);
        assert Says(2, PackCancel(c).value, command);
      case Replace(c) =>
        ReplacePacked(c);
        FrameWritten(3, PackReplace(c).value);
        assert Says(3, PackReplace(c).value, command);
    }
  }

  /** Every payload is decoded by its kind alone; other kinds are refused. */
  lemma {:induction false} CommandRead(kind: nat, payload: string)
    ensures var r := DecodeCommand(kind, payload);
            && (r.Some? <==> (kind == 1 && UnpackAdd(payload).Some?) || (kind == 2 && UnpackCancel(payload).Some?)
                             || (kind == 3 && UnpackReplace(payload).Some?))
            && (r.Some? ==> Says(kind, payload, r.value) && CommandFits(r.value))
  {
    hide UnpackAdd, UnpackCancel, UnpackReplace, AddLaidOut, CancelLaidOut, ReplaceLaidOut, CommandFits;
    AddUnpacked(payload);
    CancelUnpacked(payload);
    ReplaceUnpacked(payload);
  }

  // ---------------------------------------------------------------- sessions

  /** What a session makes of one whole frame: events (kind 10) are passed over, commands
      are handed on, and anything else drops the session with what was delivered before. */
  lemma {:induction false} FrameTaken(kind: nat, payload: string, rest: string, delivered: seq<Command>)
    requires kind < 256 && |payload| < 0x1_0000_0000
    ensures var s, r := Consume(Frame(kind, payload) + rest, delivered), DecodeCommand(kind, payload);
            s == if kind == 10 then Consume(rest, delivered)
                 else if kind == 1 || kind == 2 || kind == 3 then
                   if r.Some? then Consume(rest, delivered + [r.value]) else Session([], false, delivered)
                 else Session([], false, delivered)
  {
    hide Deframe, Frame, UnpackAdd, UnpackCancel, UnpackReplace;
    var data := Frame(kind, payload) + rest;
    FrameReadsBack(kind, payload, rest);
    assert data[9 + |payload|..] == rest;
  }
}
