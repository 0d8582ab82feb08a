/** Stream reassembly (the buffer and parse loop of src/net.cpp): bytes arrive in
    arbitrary chunks and leave as commands. */
module Session {
  import opened Orders
  import opened Crc
  import opened Protocol

  /** `delivered` records what was handed on; a dropped session keeps nothing. */
  datatype Session = Session(buffer: string, alive: bool, delivered: seq<Command>)

  const FRESH := Session([], true, [])

  function Dropped(delivered: seq<Command>): Session {
    Session([], false, delivered)
  }

  /** The parse loop over the bytes on hand. */
  function Consume(data: string, delivered: seq<Command>): Session
    decreases |data|
  {
    match Deframe(data)
    case Incomplete => Session(data, true, delivered)
    case Corrupt => Dropped(delivered)
    case Whole(kind, payload, size) =>
      if kind == EVENT then Consume(data[size..], delivered)
      else
        var c := DecodeCommand(kind, payload);
        if c.None? then Dropped(delivered) else Consume(data[size..], delivered + [c.value])
  }

  function Receive(s: Session, chunk: string): Session {
    if !s.alive then s else Consume(s.buffer + chunk, s.delivered)
  }

  function ReceiveAll(s: Session, chunks: seq<string>): Session
    decreases |chunks|
  {
    if chunks == [] then s else ReceiveAll(Receive(s, chunks[0]), chunks[1..])
  }

  function Concat(chunks: seq<string>): string {
    if chunks == [] then [] else chunks[0] + Concat(chunks[1..])
  }

  // ---------------------------------------------------------------- chunking

  /** A verdict on the first frame stands whatever arrives later. */
  lemma {:induction false} DeframeExtends(data: string, more: string)
    requires !Deframe(data).Incomplete?
    ensures Deframe(data + more) == Deframe(data)
  {
    hide Value, Checksum, Byte;
    var all := data + more;
    assert all[1..5] == data[1..5];
    var n := Value(data[1..5]);
    assert all[5..5 + n] == data[5..5 + n] && all[5 + n..9 + n] == data[5 + n..9 + n];
  }

  lemma {:induction false} ConsumeExtends(data: string, more: string, delivered: seq<Command>)
    ensures var s := Consume(data, delivered);
            Consume(data + more, delivered) == if s.alive then Consume(s.buffer + more, s.delivered) else s
    decreases |data|
  {
    hide Deframe, DecodeCommand;
    var r := Deframe(data);
    if !r.Incomplete? {
      DeframeExtends(data, more);
      if r.Whole? {
        assert (data + more)[r.size..] == data[r.size..] + more;
        if r.kind == EVENT {
          ConsumeExtends(data[r.size..], more, delivered);
        } else {
          var c := DecodeCommand(r.kind, r.payload);
          if c.Some? {
            ConsumeExtends(data[r.size..], more, delivered + [c.value]);
          }
        }
      }
    }
  }

  lemma {:induction false} TwoChunks(s: Session, a: string, b: string)
    ensures Receive(Receive(s, a), b) == Receive(s, a + b)
  {
    hide Consume;
    if s.alive {
      ConsumeExtends(s.buffer + a, b, s.delivered);
      assert s.buffer + (a + b) == s.buffer + a + b;
    }
  }

  /** What has been consumed is settled: nothing more to do without new bytes. */
  lemma {:induction false} ConsumeSettles(data: string, delivered: seq<Command>)
    ensures var s := Consume(data, delivered);
            s.alive ==> Consume(s.buffer, s.delivered) == s
    decreases |data|
  {
    hide DecodeCommand;
    var r := Deframe(data);
    if r.Whole? {
      if r.kind == EVENT {
        ConsumeSettles(data[r.size..], delivered);
      } else {
        var c := DecodeCommand(r.kind, r.payload);
        if c.Some? {
          ConsumeSettles(data[r.size..], delivered + [c.value]);
        }
      }
    }
  }

  predicate Settled(s: Session) {
    s.alive ==> Consume(s.buffer, s.delivered) == s
  }

  lemma {:induction false} ReceiveNothing(s: Session)
    requires Settled(s)
    ensures Receive(s, []) == s
  {
    hide Consume;
    assert s.buffer + [] == s.buffer;
  }

  /** However the bytes are cut into chunks, the session ends as if they had come at once. */
  lemma {:induction false} ChunksJoin(s: Session, chunks: seq<string>)
    requires Settled(s)
    ensures ReceiveAll(s, chunks) == Receive(s, Concat(chunks))
    decreases |chunks|
  {
    hide Consume;
    if chunks == [] {
      ReceiveNothing(s);
    } else {
      var s1 := Receive(s, chunks[0]);
      if s.alive {
        ConsumeSettles(s.buffer + chunks[0], s.delivered);
      }
      ChunksJoin(s1, chunks[1..]);
      TwoChunks(s, chunks[0], Concat(chunks[1..]));
    }
  }

  /** Commands delivered, bytes kept back and the decision to drop the session
      depend on the bytes alone. */
  lemma {:induction false} ChunkingInvisible(a: seq<string>, b: seq<string>)
    requires Concat(a) == Concat(b)
    ensures ReceiveAll(FRESH, a) == ReceiveAll(FRESH, b)
  {
    hide ReceiveAll, Concat;
    FreshSettled();
    ChunksJoin(FRESH, a);
    ChunksJoin(FRESH, b);
  }

  lemma {:induction false} FreshSettled()
    ensures Settled(FRESH)
  {
  }

  // ---------------------------------------------------------------- an encoded stream

  /** What a peer may send: commands, and event frames, which are skipped. */
  datatype Sent = Order(command: Command) | Notice(payload: string)

  predicate Sendable(item: Sent) {
    match item
    case Order(command) => CommandFits(command) && NamesFit(command)
    case Notice(payload) => |payload| < 0x1_0000_0000
  }

  function Bytes(item: Sent): string {
    match item
    case Order(command) => var p := EncodeCommand(command); if p.Some? then p.value else []
    case Notice(payload) => Frame(EVENT, payload)
  }

  function Stream(items: seq<Sent>): string {
    if items == [] then [] else Bytes(items[0]) + Stream(items[1..])
  }

  function Commands(items: seq<Sent>): seq<Command> {
    if items == [] then [] else
    (if items[0].Order? then [items[0].command] else []) + Commands(items[1..])
  }

  ghost predicate AllSendable(items: seq<Sent>) {
    forall i :: 0 <= i < |items| ==> Sendable(items[i])
  }

  lemma {:induction false} OneItem(item: Sent, rest: string, delivered: seq<Command>)
    requires Sendable(item)
    ensures Consume(Bytes(item) + rest, delivered) ==
            Consume(rest, delivered + if item.Order? then [item.command] else [])
  {
    hide Deframe, EncodeCommand, DecodeCommand, Frame, CommandFits, NamesFit;
    match item
    case Order(command) =>
      CommandReadsBack(command);
      var kind, payload :| EncodeCommand(command) == Some(Frame(kind, payload))
        && kind < 256 && kind != EVENT && |payload| <= MAX_ADD && DecodeCommand(kind, payload) == Some(command);
      FrameReadsBack(kind, payload, rest);
      assert (Frame(kind, payload) + rest)[9 + |payload|..] == rest;
    case Notice(payload) =>
      FrameReadsBack(EVENT, payload, rest);
      assert (Frame(EVENT, payload) + rest)[9 + |payload|..] == rest;
      assert delivered + [] == delivered;
  }

  /** The items of a stream are consumed one after the other, whatever follows. */
  lemma {:induction false} StreamConsumed(items: seq<Sent>, rest: string, delivered: seq<Command>)
    requires AllSendable(items)
    ensures Consume(Stream(items) + rest, delivered) == Consume(rest, delivered + Commands(items))
    decreases |items|
  {
    hide Consume, Bytes, Sendable;
    if items == [] {
      assert Stream(items) + rest == rest && delivered + Commands(items) == delivered;
    } else {
      var own := if items[0].Order? then [items[0].command] else [];
      assert Stream(items) + rest == Bytes(items[0]) + (Stream(items[1..]) + rest);
      OneItem(items[0], Stream(items[1..]) + rest, delivered);
      StreamConsumed(items[1..], rest, delivered + own);
      assert delivered + own + Commands(items[1..]) == delivered + Commands(items);
    }
  }

  /** A stream of encoded commands and events, however it is cut, delivers exactly
      the commands, in order, and keeps nothing back. */
  lemma {:induction false} StreamDelivers(items: seq<Sent>, chunks: seq<string>)
    requires AllSendable(items) && Concat(chunks) == Stream(items)
    ensures ReceiveAll(FRESH, chunks) == Session([], true, Commands(items))
  {
    hide ReceiveAll, Concat, Stream, Commands, Consume;
    FreshSettled();
    ChunksJoin(FRESH, chunks);
    StreamConsumed(items, [], []);
    assert Stream(items) + [] == Stream(items) && [] + Stream(items) == Stream(items);
    assert [] + Commands(items) == Commands(items);
    ConsumeNothing(Commands(items));
  }

  lemma {:induction false} ConsumeNothing(delivered: seq<Command>)
    ensures Consume([], delivered) == Session([], true, delivered)
  {
  }

  /** One changed payload byte: the commands before it are delivered, the session
      is dropped there, and nothing after it gets through. */
  lemma {:induction false} DamageDrops(before: seq<Sent>, kind: nat, a: string, c: char, d: char, b: string, rest: string,
                                     chunks: seq<string>)
    requires AllSendable(before)
    requires |a| + 1 + |b| < 0x1_0000_0000 && c as int < 256 && d as int < 256 && c != d
    requires Concat(chunks) == Stream(before) + (FrameWith(kind, a + [d] + b, Checksum(a + [c] + b)) + rest)
    ensures ReceiveAll(FRESH, chunks) == Dropped(Commands(before))
  {
    hide ReceiveAll, Concat, Stream, Commands, Deframe, FrameWith, Checksum;
    FreshSettled();
    ChunksJoin(FRESH, chunks);
    var tail := FrameWith(kind, a + [d] + b, Checksum(a + [c] + b)) + rest;
    StreamConsumed(before, tail, []);
    assert [] + (Stream(before) + tail) == Stream(before) + tail && [] + Commands(before) == Commands(before);
    ChangedByteRejected(kind, a, c, d, b, rest);
  }
}
