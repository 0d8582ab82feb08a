/** What recovery makes of a document as it comes, complete or not: which fields a
    log record gives, which records are invalid or passed over, and which orders a
    snapshot restores. */
module ReadingLaws {
  import opened Orders
  import opened EngineSpec
  import opened JsonValue
  import opened JsonText
  import opened Snapshot
  import opened Wal
  import opened ShardedSpec

  // ---------------------------------------------------------------- lookup

  /** `v` is the value of the first member with the key. */
  predicate First(j: Json, key: string, v: Json) {
    j.Object? && exists k :: 0 <= k < |j.members| && j.members[k] == Member(key, v)
                             && forall i :: 0 <= i < k ==> j.members[i].key != key
  }

  predicate Has(j: Json, key: string) {
    j.Object? && exists k :: 0 <= k < |j.members| && j.members[k].key == key
  }

  lemma {:induction false} FirstOf(members: seq<Member>, key: string) returns (k: nat)
    ensures (exists i :: 0 <= i < |members| && members[i].key == key) <==> FindIn(members, key).Some?
    ensures FindIn(members, key).Some? ==>
              && k < |members| && members[k] == Member(key, FindIn(members, key).value)
              && forall i :: 0 <= i < k ==> members[i].key != key
  {
    k := 0;
    if members != [] && members[0].key != key {
      k := FirstOf(members[1..], key);
      forall i | 0 <= i < |members| && members[i].key == key
        ensures members[1..][i - 1].key == key
      {
      }
      k := k + 1;
    }
  }

  lemma {:induction false} FindIs(j: Json, key: string)
    ensures j.Find(key).Some? <==> Has(j, key)
    ensures j.Find(key).Some? ==> First(j, key, j.Find(key).value)
  {
    hide FindIn;
    if j.Object? {
      var k := FirstOf(j.members, key);
    }
  }

  /** The key is missing, or its value is not of the kind that is read. */
  ghost predicate TextAt(j: Json, key: string, text: string) {
    if exists v :: First(j, key, v) && v.String? then First(j, key, String(text)) else text == ""
  }

  ghost predicate NumberAt(j: Json, key: string, n: int) {
    if exists v :: First(j, key, v) && v.Int? then First(j, key, Int(n)) else n == 0
  }

  lemma {:induction false} FirstUnique(j: Json, key: string, v: Json, w: Json)
    requires First(j, key, v) && First(j, key, w)
    ensures v == w
  {
    var k :| 0 <= k < |j.members| && j.members[k] == Member(key, v) && forall i :: 0 <= i < k ==> j.members[i].key != key;
    var l :| 0 <= l < |j.members| && j.members[l] == Member(key, w) && forall i :: 0 <= i < l ==> j.members[i].key != key;
    assert k == l;
  }

  lemma {:induction false} FieldIs(j: Json, key: string)
    requires j.Object?
    ensures TextAt(j, key, StringAt(j.members, key)) && NumberAt(j, key, IntAt(j.members, key))
  {
    hide First, Has, FindIn;
    FindIs(j, key);
    forall v | First(j, key, v)
      ensures j.Find(key) == Some(v)
    {
      FirstHas(j, key, v);
      FirstUnique(j, key, v, j.Find(key).value);
    }
  }

  lemma {:induction false} FirstHas(j: Json, key: string, v: Json)
    requires First(j, key, v)
    ensures Has(j, key)
  {
  }

  // ---------------------------------------------------------------- log records

  /** A record has a type, and a command that is an object. */
  ghost predicate ValidRecord(record: Json) {
    Has(record, "type") && exists v :: First(record, "command", v) && v.Object?
  }

  ghost predicate TifNamed(j: Json, tif: TimeInForce) {
    && (tif == Ioc <==> TextAt(j, "time_in_force", "IOC"))
    && (tif == Fok <==> TextAt(j, "time_in_force", "FOK"))
    && (tif == Market <==> TextAt(j, "time_in_force", "MARKET"))
  }

  ghost predicate AddRead(j: Json, c: AddOrder) {
    && TextAt(j, "symbol", c.symbol) && NumberAt(j, "order_id", c.orderId) && TextAt(j, "participant_id", c.participant)
    && (c.side == Buy <==> TextAt(j, "side", "BUY"))
    && NumberAt(j, "price_ticks", c.price) && NumberAt(j, "quantity", c.quantity) && TifNamed(j, c.tif)
    && (c.stp == CancelAggressor <==> TextAt(j, "stp", "CANCEL_AGGRESSOR"))
    && (c.stp == CancelPassive <==> TextAt(j, "stp", "CANCEL_PASSIVE"))
    && (c.stp == CancelBoth <==> TextAt(j, "stp", "CANCEL_BOTH"))
  }

  ghost predicate ReplaceRead(j: Json, c: ReplaceOrder) {
    && TextAt(j, "symbol", c.symbol) && NumberAt(j, "order_id", c.orderId) && NumberAt(j, "new_order_id", c.newOrderId)
    && NumberAt(j, "new_price_ticks", c.newPrice) && NumberAt(j, "new_quantity", c.newQuantity) && TifNamed(j, c.tif)
  }

  lemma {:induction false} TextUnique(j: Json, key: string, s: string, t: string)
    requires TextAt(j, key, s) && TextAt(j, key, t)
    ensures s == t
  {
    hide First;
    if First(j, key, String(s)) && First(j, key, String(t)) {
      FirstUnique(j, key, String(s), String(t));
    }
  }

  lemma {:induction false} NamedTif(j: Json, text: string)
    requires TextAt(j, "time_in_force", text)
    ensures TifNamed(j, TifFrom(text))
  {
    hide TextAt;
    assert |"MARKET"| == 6 && "IOC"[0] == 'I' && "FOK"[0] == 'F';
    if TextAt(j, "time_in_force", "IOC") { TextUnique(j, "time_in_force", text, "IOC"); }
    if TextAt(j, "time_in_force", "FOK") { TextUnique(j, "time_in_force", text, "FOK"); }
    if TextAt(j, "time_in_force", "MARKET") { TextUnique(j, "time_in_force", text, "MARKET"); }
  }

  lemma {:induction false} NamedStp(j: Json, text: string)
    requires TextAt(j, "stp", text)
    ensures StpFrom(text) == CancelAggressor <==> TextAt(j, "stp", "CANCEL_AGGRESSOR")
    ensures StpFrom(text) == CancelPassive <==> TextAt(j, "stp", "CANCEL_PASSIVE")
    ensures StpFrom(text) == CancelBoth <==> TextAt(j, "stp", "CANCEL_BOTH")
  {
    hide TextAt;
    assert |"CANCEL_AGGRESSOR"| == 16 && |"CANCEL_PASSIVE"| == 14 && |"CANCEL_BOTH"| == 11;
    if TextAt(j, "stp", "CANCEL_AGGRESSOR") { TextUnique(j, "stp", text, "CANCEL_AGGRESSOR"); }
    if TextAt(j, "stp", "CANCEL_PASSIVE") { TextUnique(j, "stp", text, "CANCEL_PASSIVE"); }
    if TextAt(j, "stp", "CANCEL_BOTH") { TextUnique(j, "stp", text, "CANCEL_BOTH"); }
  }

  lemma {:induction false} AddIsRead(j: Json)
    requires j.Object?
    ensures var m := j.members;
            AddRead(j, AddOrder(StringAt(m, "symbol"), IntAt(m, "order_id"), StringAt(m, "participant_id"),
                                if StringAt(m, "side") == "BUY" then Buy else Sell, IntAt(m, "price_ticks"),
                                IntAt(m, "quantity"), TifFrom(StringAt(m, "time_in_force")), StpFrom(StringAt(m, "stp"))))
  {
    hide TextAt, NumberAt, StringAt, IntAt, TifNamed, TifFrom, StpFrom;
    var m := j.members;
    FieldIs(j, "symbol");
    FieldIs(j, "order_id");
    FieldIs(j, "participant_id");
    FieldIs(j, "side");
    FieldIs(j, "price_ticks");
    FieldIs(j, "quantity");
    FieldIs(j, "time_in_force");
    FieldIs(j, "stp");
    NamedTif(j, StringAt(m, "time_in_force"));
    NamedStp(j, StringAt(m, "stp"));
    if TextAt(j, "side", "BUY") { TextUnique(j, "side", StringAt(m, "side"), "BUY"); }
  }

  lemma {:induction false} ReplaceIsRead(j: Json)
    requires j.Object?
    ensures var m := j.members;
            ReplaceRead(j, ReplaceOrder(StringAt(m, "symbol"), IntAt(m, "order_id"), IntAt(m, "new_order_id"),
                                        IntAt(m, "new_price_ticks"), IntAt(m, "new_quantity"),
                                        TifFrom(StringAt(m, "time_in_force"))))
  {
    hide TextAt, NumberAt, StringAt, IntAt, TifNamed, TifFrom;
    FieldIs(j, "symbol");
    FieldIs(j, "order_id");
    FieldIs(j, "new_order_id");
    FieldIs(j, "new_price_ticks");
    FieldIs(j, "new_quantity");
    FieldIs(j, "time_in_force");
    NamedTif(j, StringAt(j.members, "time_in_force"));
  }

  /** `command` is what the fields of `j` say, under the name `tag`. */
  ghost predicate CommandRead(tag: string, j: Json, command: Command) {
    match command
    case Add(c) => tag == "add" && AddRead(j, c)
    case Cancel(c) => tag == "cancel" && TextAt(j, "symbol", c.symbol) && NumberAt(j, "order_id", c.orderId)
    case Replace(c) => tag == "replace" && ReplaceRead(j, c)
  }

  lemma {:induction false} RecordValid(record: Json)
    ensures DecodeRecord(record).Invalid? <==> !ValidRecord(record)
    ensures ValidRecord(record) ==>
              && TextAt(record, "type", record.Find("type").value.AsString())
              && First(record, "command", record.Find("command").value) && record.Find("command").value.Object?
  {
    hide First, Has, FindIn, StringAt, IntAt, TifFrom, StpFrom;
    FindIs(record, "type");
    FindIs(record, "command");
    forall v | First(record, "command", v)
      ensures record.Find("command") == Some(v)
    {
      FirstHas(record, "command", v);
      FirstUnique(record, "command", v, record.Find("command").value);
    }
    forall v | First(record, "type", v)
      ensures record.Find("type") == Some(v)
    {
      FirstHas(record, "type", v);
      FirstUnique(record, "type", v, record.Find("type").value);
    }
  }

  /** Every record, as replay takes it: invalid without a type or without a command that
      is an object; a command if its type names one, whose missing or mistyped fields read
      as empty text, zero, sell, GTC and no prevention; and passed over otherwise. */
  lemma {:induction false} RecordMeans(record: Json) returns (tag: string, j: Json)
    ensures DecodeRecord(record).Invalid? <==> !ValidRecord(record)
    ensures ValidRecord(record) ==> TextAt(record, "type", tag) && First(record, "command", j)
    ensures DecodeRecord(record).Ignored? <==>
              ValidRecord(record) && tag != "add" && tag != "cancel" && tag != "replace"
    ensures DecodeRecord(record).Apply? ==> CommandRead(tag, j, DecodeRecord(record).command)
  {
    hide First, TextAt, NumberAt, StringAt, IntAt, TifFrom, StpFrom, AddRead, ReplaceRead, ValidRecord;
    tag, j := "", Null;
    RecordValid(record);
    if ValidRecord(record) {
      tag, j := record.Find("type").value.AsString(), record.Find("command").value;
      AddIsRead(j);
      ReplaceIsRead(j);
      FieldIs(j, "symbol");
      FieldIs(j, "order_id");
    }
  }

  /** The commands among some records. */
  function CommandsOf(records: seq<Json>): seq<Command> {
    if records == [] then []
    else (if DecodeRecord(records[0]).Apply? then [DecodeRecord(records[0]).command] else []) + CommandsOf(records[1..])
  }

  /** Replaying records runs their commands; one invalid record aborts it. */
  lemma {:induction false} RecordsRun(e: Engine, records: seq<Json>)
    ensures ApplyRecords(e, records) ==
            if forall i :: 0 <= i < |records| ==> ValidRecord(records[i]) then Some(Run(e, CommandsOf(records))) else None
    decreases |records|
  {
    hide Step, DecodeRecord, ValidRecord;
    if records != [] {
      var decoded := DecodeRecord(records[0]);
      RecordValid(records[0]);
      if decoded.Apply? {
        RecordsRun(Step(e, decoded.command).engine, records[1..]);
        assert ([decoded.command] + CommandsOf(records[1..]))[1..] == CommandsOf(records[1..]);
      } else if decoded.Ignored? {
        RecordsRun(e, records[1..]);
        assert [] + CommandsOf(records[1..]) == CommandsOf(records[1..]);
      }
    }
  }

  /** Rebuilding a shard starts from its snapshot, if there is one that is not empty,
      and runs the commands in the log behind it, staged ones included. */
  lemma {:induction false} ShardRebuilt(store: Store, base: Engine, records: seq<Json>)
    requires match store.snapshot
             case None => base == EMPTY_ENGINE
             case Some(text) => if text == "" then base == EMPTY_ENGINE
                                else Parse(text).Some? && LoadJson(0, Parse(text).value) == Some(base)
    requires Replay(if store.open then store.file + store.pending else store.file) == Some(records)
    requires forall i :: 0 <= i < |records| ==> ValidRecord(records[i])
    ensures ReplayShard(store) == Some(Run(base, CommandsOf(records)))
  {
    hide Parse, LoadJson, Replay, ApplyRecords, ValidRecord;
    RecordsRun(base, records);
  }

  // ---------------------------------------------------------------- snapshots

  /** What loading a snapshot does, one thing at a time: a book is opened, or an order rests. */
  datatype Item = Opened(symbol: string) | Placed(order: AddOrder)

  function Number(j: Json): int {
    match j case Int(n) => n case _ => 0
  }

  function Text(j: Json): string {
    match j case String(s) => s case _ => ""
  }

  /** An order counts only if it has all three of its keys. */
  function OrderItems(symbol: string, side: Side, price: Json, o: Json): seq<Item> {
    var id, participant, remaining := o.Find("order_id"), o.Find("participant_id"), o.Find("remaining");
    if id.Some? && participant.Some? && remaining.Some? then
      [Placed(AddOrder(symbol, Number(id.value), Text(participant.value), side, Number(price), Number(remaining.value),
                       Gtc, Allow))]
    else []
  }

  function OrdersItems(symbol: string, side: Side, price: Json, orders: seq<Json>): seq<Item> {
    if orders == [] then [] else OrderItems(symbol, side, price, orders[0]) + OrdersItems(symbol, side, price, orders[1..])
  }

  /** A level counts only if it has a price and a list of orders. */
  function LevelItems(symbol: string, side: Side, level: Json): seq<Item> {
    var price, orders := level.Find("price_ticks"), level.Find("orders");
    if price.Some? && orders.Some? && orders.value.Array? then
      OrdersItems(symbol, side, price.value, orders.value.elements)
    else []
  }

  function LevelsItems(symbol: string, side: Side, levels: seq<Json>): seq<Item> {
    if levels == [] then [] else LevelItems(symbol, side, levels[0]) + LevelsItems(symbol, side, levels[1..])
  }

  /** A side counts only if it is a list; a list opens the book, even an empty one. */
  function SideItems(symbol: string, side: Side, key: string, data: Json): seq<Item> {
    var levels := data.Find(key);
    if levels.Some? && levels.value.Array? then [Opened(symbol)] + LevelsItems(symbol, side, levels.value.elements)
    else []
  }

  function BookItems(symbol: string, data: Json): seq<Item> {
    SideItems(symbol, Buy, "bids", data) + SideItems(symbol, Sell, "asks", data)
  }

  function BooksItems(books: seq<Member>): seq<Item> {
    if books == [] then [] else BookItems(books[0].key, books[0].value) + BooksItems(books[1..])
  }

  function Do(e: Engine, item: Item): Engine {
    match item
    case Opened(symbol) => OpenBook(e, symbol)
    case Placed(o) => Rest(e, o, o.quantity)
  }

  function DoAll(e: Engine, items: seq<Item>): Engine
    decreases |items|
  {
    if items == [] then e else DoAll(Do(e, items[0]), items[1..])
  }

  lemma {:induction false} DoConcat(e: Engine, a: seq<Item>, b: seq<Item>)
    ensures DoAll(e, a + b) == DoAll(DoAll(e, a), b)
    decreases |a|
  {
    hide Do;
    if a == [] {
      assert a + b == b;
    } else {
      assert (a + b)[0] == a[0] && (a + b)[1..] == a[1..] + b;
      DoConcat(Do(e, a[0]), a[1..], b);
    }
  }

  lemma {:induction false} DoNone(e: Engine)
    ensures DoAll(e, []) == e
  {
  }

  lemma {:induction false} DoOne(e: Engine, item: Item)
    ensures DoAll(e, [item]) == Do(e, item)
  {
    hide Do;
    assert [item][1..] == [];
    DoNone(Do(e, item));
  }

  lemma {:induction false} OrderDone(e: Engine, symbol: string, side: Side, price: Json, o: Json)
    ensures RestoreOrder(e, symbol, side, price, o) == DoAll(e, OrderItems(symbol, side, price, o))
  {
    hide Rest, FindIn, DoAll;
    DoNone(e);
    if OrderItems(symbol, side, price, o) != [] {
      DoOne(e, OrderItems(symbol, side, price, o)[0]);
    }
  }

  lemma {:induction false} OrdersDone(e: Engine, symbol: string, side: Side, price: Json, orders: seq<Json>)
    ensures RestoreOrders(e, symbol, side, price, orders) == DoAll(e, OrdersItems(symbol, side, price, orders))
    decreases |orders|
  {
    hide RestoreOrder, OrderItems, DoAll;
    if orders == [] {
      DoNone(e);
    } else {
      OrderDone(e, symbol, side, price, orders[0]);
      OrdersDone(RestoreOrder(e, symbol, side, price, orders[0]), symbol, side, price, orders[1..]);
      DoConcat(e, OrderItems(symbol, side, price, orders[0]), OrdersItems(symbol, side, price, orders[1..]));
    }
  }

  lemma {:induction false} LevelsDone(e: Engine, symbol: string, side: Side, levels: seq<Json>)
    ensures RestoreLevels(e, symbol, side, levels) == DoAll(e, LevelsItems(symbol, side, levels))
    decreases |levels|
  {
    hide RestoreOrders, OrdersItems, DoAll, FindIn;
    if levels == [] {
      DoNone(e);
    } else {
      var level := levels[0];
      DoNone(e);
      if level.Find("price_ticks").Some? && level.Find("orders").Some? && level.Find("orders").value.Array? {
        OrdersDone(e, symbol, side, level.Find("price_ticks").value, level.Find("orders").value.elements);
      }
      LevelsDone(RestoreLevel(e, symbol, side, level), symbol, side, levels[1..]);
      DoConcat(e, LevelItems(symbol, side, level), LevelsItems(symbol, side, levels[1..]));
    }
  }

  lemma {:induction false} SideDone(e: Engine, symbol: string, side: Side, key: string, data: Json)
    ensures RestoreSide(e, symbol, side, data.Find(key)) == DoAll(e, SideItems(symbol, side, key, data))
  {
    hide RestoreLevels, LevelsItems, DoAll, FindIn, OpenBook;
    DoNone(e);
    var levels := data.Find(key);
    if levels.Some? && levels.value.Array? {
      DoOne(e, Opened(symbol));
      LevelsDone(OpenBook(e, symbol), symbol, side, levels.value.elements);
      DoConcat(e, [Opened(symbol)], LevelsItems(symbol, side, levels.value.elements));
    }
  }

  lemma {:induction false} BooksDone(e: Engine, books: seq<Member>)
    ensures RestoreBooks(e, books) ==
            if forall i :: 0 <= i < |books| ==> books[i].value.Object? then Some(DoAll(e, BooksItems(books))) else None
    decreases |books|
  {
    hide RestoreSide, SideItems, DoAll, FindIn;
    if books == [] {
      DoNone(e);
    } else if books[0].value.Object? {
      var symbol, data := books[0].key, books[0].value;
      SideDone(e, symbol, Buy, "bids", data);
      SideDone(RestoreSide(e, symbol, Buy, data.Find("bids")), symbol, Sell, "asks", data);
      DoConcat(e, SideItems(symbol, Buy, "bids", data), SideItems(symbol, Sell, "asks", data));
      BooksDone(RestoreBook(e, symbol, data), books[1..]);
      DoConcat(e, BookItems(symbol, data), BooksItems(books[1..]));
    }
  }

  /** Every document, as loading takes it: rejected unless its books are an object of
      objects; else the event number, zero without one, and its complete orders, resting in
      the order in which they are written. */
  lemma {:induction false} DocumentMeans(nodes: nat, snap: Json)
    ensures var accepted := exists v :: First(snap, "books", v) && v.Object?
                                        && forall i :: 0 <= i < |v.members| ==> v.members[i].value.Object?;
            && (LoadJson(nodes, snap).Some? <==> accepted)
            && forall v, n :: accepted && First(snap, "books", v) && NumberAt(snap, "sequence", n) ==>
                 LoadJson(nodes, snap) == Some(DoAll(Engine(map[], map[], n, nodes), BooksItems(v.members)))
  {
    hide First, Has, FindIn, RestoreBooks, BooksItems, DoAll;
    FindIs(snap, "books");
    FindIs(snap, "sequence");
    forall v | First(snap, "books", v)
      ensures snap.Find("books") == Some(v)
    {
      FirstHas(snap, "books", v);
      FirstUnique(snap, "books", v, snap.Find("books").value);
    }
    forall v | First(snap, "sequence", v)
      ensures snap.Find("sequence") == Some(v)
    {
      FirstHas(snap, "sequence", v);
      FirstUnique(snap, "sequence", v, snap.Find("sequence").value);
    }
    var books, sequence := snap.Find("books"), snap.Find("sequence");
    if books.Some? && books.value.Object? {
      var n := if sequence.Some? then sequence.value.AsInt() else 0;
      BooksDone(Engine(map[], map[], n, nodes), books.value.members);
    }
  }
}
