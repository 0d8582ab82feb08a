/** The codec and the per-connection parse loop as the program runs them: byte
    loops over an output string, a moving offset, a buffer cut in place. */
module WireCodec {
  import opened Orders
  import opened Crc
  import opened Protocol
  import opened Session

  // ---------------------------------------------------------------- byte loops

  /** `v >> 8 * i` */
  function Shifted(v: nat, i: nat): nat {
    if i == 0 then v else Shifted(v / 256, i - 1)
  }

  lemma {:induction false} ShiftedOnce(v: nat, i: nat)
    ensures Shifted(v, i + 1) == Shifted(v, i) / 256
    decreases i
  {
    if i > 0 {
      ShiftedOnce(v / 256, i - 1);
    }
  }

  lemma {:induction false} BigEndianStep(v: nat, width: nat, i: nat)
    ensures BigEndian(Shifted(v, i + 1), width) + [Char(Shifted(v, i))] == BigEndian(Shifted(v, i), width + 1)
  {
    hide Shifted;
    ShiftedOnce(v, i);
  }

  /** Most significant byte first: the shift starts high and falls to zero. */
  method PutBigEndian(before: string, v: nat, width: nat) returns (out: string)
    ensures out == before + BigEndian(v, width)
  {
    hide Char;
    out := before;
    var i := width;
    while i > 0
      invariant 0 <= i <= width
      invariant out == before + BigEndian(Shifted(v, i), width - i)
    {
      i := i - 1;
      BigEndianStep(v, width - i - 1, i);
      out := out + [Char(Shifted(v, i))];
    }
  }

  method GetBigEndian(s: string, offset: nat, width: nat) returns (v: nat)
    requires offset + width <= |s|
    ensures v == Value(s[offset..offset + width])
  {
    v := 0;
    var i := 0;
    while i < width
      invariant i <= width
      invariant v == Value(s[offset..offset + i])
    {
      var part := s[offset..offset + i + 1];
      assert part[..i] == s[offset..offset + i];
      v := v * 256 + Byte(s[offset + i]);
      i := i + 1;
    }
  }

  // ---------------------------------------------------------------- commands

  method PackAddOrder(c: AddOrder) returns (r: Option<string>)
    ensures r == PackAdd(c)
  {
    hide BigEndian, Char;
    if |c.symbol| > MAX_NAME || |c.participant| > MAX_NAME {
      return None;
    }
    var out := [Char(|c.symbol|), Char(|c.participant|), Char(if c.side == Buy then 1 else 2),
                Char(TifCode(c.tif)), Char(StpCode(c.stp))];
    out := PutBigEndian(out, ToUnsigned(c.orderId), 8);
    out := PutBigEndian(out, ToUnsigned(c.price), 8);
    out := PutBigEndian(out, ToUnsigned(c.quantity), 8);
    r := Some(out + c.symbol + c.participant);
  }

  method PackCancelOrder(c: CancelOrder) returns (r: Option<string>)
    ensures r == PackCancel(c)
  {
    hide BigEndian, Char;
    if |c.symbol| > MAX_NAME {
      return None;
    }
    var out := PutBigEndian([Char(|c.symbol|)], ToUnsigned(c.orderId), 8);
    r := Some(out + c.symbol);
  }

  method PackReplaceOrder(c: ReplaceOrder) returns (r: Option<string>)
    ensures r == PackReplace(c)
  {
    hide BigEndian, Char;
    if |c.symbol| > MAX_NAME {
      return None;
    }
    var out := PutBigEndian([Char(|c.symbol|), Char(TifCode(c.tif))], ToUnsigned(c.orderId), 8);
    out := PutBigEndian(out, ToUnsigned(c.newOrderId), 8);
    out := PutBigEndian(out, ToUnsigned(c.newPrice), 8);
    out := PutBigEndian(out, ToUnsigned(c.newQuantity), 8);
    r := Some(out + c.symbol);
  }

  method UnpackAddOrder(s: string) returns (r: Option<AddOrder>)
    ensures r == UnpackAdd(s)
  {
    hide Value, Byte;
    if |s| < 29 || |s| > MAX_ADD {
      return None;
    }
    var n, m := Byte(s[0]), Byte(s[1]);
    var orderId := GetBigEndian(s, 5, 8);
    var price := GetBigEndian(s, 13, 8);
    var quantity := GetBigEndian(s, 21, 8);
    if |s| < 29 + n + m {
      return None;
    }
    var tif, stp := CodeTif(Byte(s[3])), CodeStp(Byte(s[4]));
    if tif.None? || stp.None? {
      return None;
    }
    r := Some(AddOrder(s[29..29 + n], ToSigned(orderId), s[29 + n..29 + n + m], if Byte(s[2]) == 1 then Buy else Sell,
                       ToSigned(price), ToSigned(quantity), tif.value, stp.value));
  }

  method UnpackCancelOrder(s: string) returns (r: Option<CancelOrder>)
    ensures r == UnpackCancel(s)
  {
    hide Value, Byte;
    if |s| < 9 {
      return None;
    }
    var n := Byte(s[0]);
    var orderId := GetBigEndian(s, 1, 8);
    if |s| < 9 + n {
      return None;
    }
    r := Some(CancelOrder(s[9..9 + n], ToSigned(orderId)));
  }

  method UnpackReplaceOrder(s: string) returns (r: Option<ReplaceOrder>)
    ensures r == UnpackReplace(s)
  {
    hide Value, Byte;
    if |s| < 34 {
      return None;
    }
    var n := Byte(s[0]);
    if |s| < 34 + n {
      return None;
    }
    var orderId := GetBigEndian(s, 2, 8);
    var newOrderId := GetBigEndian(s, 10, 8);
    var newPrice := GetBigEndian(s, 18, 8);
    var newQuantity := GetBigEndian(s, 26, 8);
    var tif := CodeTif(Byte(s[1]));
    if tif.None? {
      return None;
    }
    r := Some(ReplaceOrder(s[34..34 + n], ToSigned(orderId), ToSigned(newOrderId), ToSigned(newPrice),
                           ToSigned(newQuantity), tif.value));
  }

  // ---------------------------------------------------------------- frames

  method FrameMessage(kind: nat, payload: string) returns (out: string)
    ensures out == Frame(kind, payload)
  {
    hide BigEndian, Char;
    out := PutBigEndian([Char(kind)], |payload| % 0x1_0000_0000, 4);
    out := out + payload;
    var crc := ComputeCrc(payload, 0);
    out := PutBigEndian(out, crc as int, 4);
  }

  /** The frame at `offset`; `size` is how far the offset moves. */
  method ParseFrame(data: string, offset: nat) returns (r: Parsed)
    requires offset <= |data|
    ensures r == Deframe(data[offset..])
  {
    hide Value, Byte, Crc32;
    ghost var view := data[offset..];
    if |data| - offset < 5 {
      return Incomplete;
    }
    var p := offset;
    var kind := Byte(data[p]);
    var n := GetBigEndian(data, p + 1, 4);
    assert view[1..5] == data[p + 1..p + 5];
    p := p + 5;
    if |data| - p < n + 4 {
      return Incomplete;
    }
    var body := data[p..p + n];
    assert view[5..5 + n] == body;
    p := p + n;
    var expected := GetBigEndian(data, p, 4);
    assert view[5 + n..9 + n] == data[p..p + 4];
    p := p + 4;
    var crc := ComputeCrc(body, 0);
    r := if crc as int != expected then Corrupt else Whole(kind, body, p - offset);
  }

  method Decode(kind: nat, payload: string) returns (r: Option<Command>)
    ensures r == DecodeCommand(kind, payload)
  {
    hide UnpackAdd, UnpackCancel, UnpackReplace;
    if kind == ADD {
      var c := UnpackAddOrder(payload);
      r := if c.None? then None else Some(Add(c.value));
    } else if kind == CANCEL {
      var c := UnpackCancelOrder(payload);
      r := if c.None? then None else Some(Cancel(c.value));
    } else if kind == REPLACE {
      var c := UnpackReplaceOrder(payload);
      r := if c.None? then None else Some(Replace(c.value));
    } else {
      r := None;
    }
  }

  // ---------------------------------------------------------------- one connection

  class Conn {
    var buffer: string
    var alive: bool
    /** What the handler was given. */
    var delivered: seq<Command>

    ghost function Abs(): Session
      reads this
    {
      if alive then Session(buffer, true, delivered) else Dropped(delivered)
    }

    constructor ()
      ensures Abs() == FRESH
    {
      buffer, alive, delivered := [], true, [];
    }

    /** One readiness notification: everything received is appended, then parsed. */
    method Drain(chunks: seq<string>)
      modifies this
      ensures Abs() == Receive(old(Abs()), Concat(chunks))
    {
      hide Deframe, DecodeCommand;
      if !alive {
        return;
      }
      ReceiveChunks(chunks);
      ghost var data, before := buffer, delivered;
      var offset := 0;
      assert buffer[0..] == buffer;
      while true
        invariant alive && buffer == data && offset <= |buffer|
        invariant Consume(buffer[offset..], delivered) == Consume(data, before)
        decreases |data| - offset
      {
        var r := ParseFrame(buffer, offset);
        if r.Incomplete? {
          break;
        }
        if r.Corrupt? {
          alive := false;
          return;
        }
        assert buffer[offset..][r.size..] == buffer[offset + r.size..];
        if r.kind != EVENT {
          var c := Decode(r.kind, r.payload);
          if c.None? {
            alive := false;
            return;
          }
          delivered := delivered + [c.value];
        }
        offset := offset + r.size;
      }
      buffer := buffer[offset..];
    }

    method ReceiveChunks(chunks: seq<string>)
      modifies this`buffer
      ensures buffer == old(buffer) + Concat(chunks)
    {
      var i := 0;
      assert chunks[0..] == chunks;
      while i < |chunks|
        invariant i <= |chunks|
        invariant buffer + Concat(chunks[i..]) == old(buffer) + Concat(chunks)
      {
        assert chunks[i..][0] == chunks[i] && chunks[i..][1..] == chunks[i + 1..];
        assert buffer + (chunks[i] + Concat(chunks[i + 1..])) == buffer + chunks[i] + Concat(chunks[i + 1..]);
        buffer := buffer + chunks[i];
        i := i + 1;
      }
    }
  }
}
