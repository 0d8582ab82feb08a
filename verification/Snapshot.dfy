/** Saving an engine as a JSON document and loading it back. */
module Snapshot {
  import opened Orders
  import opened EngineSpec
  import opened JsonValue

  // ---------------------------------------------------------------- saving

  function OrderJson(o: RestingOrder): Json {
    Object([Member("order_id", Int(o.orderId)), Member("participant_id", String(o.participant)), Member("remaining", Int(o.remaining))])
  }

  function OrdersJson(orders: seq<RestingOrder>): seq<Json> {
    if orders == [] then [] else [OrderJson(orders[0])] + OrdersJson(orders[1..])
  }

  function LevelJson(price: int, orders: seq<RestingOrder>): Json {
    Object([Member("price_ticks", Int(price)), Member("orders", Array(OrdersJson(orders)))])
  }

  /** How many orders at the head of the list share its first price. */
  function RunLength(orders: seq<RestingOrder>): (k: nat)
    ensures k <= |orders| && (orders != [] ==> k > 0)
    ensures forall i :: 0 <= i < k ==> orders[i].price == orders[0].price
  {
    if |orders| <= 1 then |orders|
    else if orders[1].price != orders[0].price then 1
    else 1 + RunLength(orders[1..])
  }

  /** One entry per price level, best first. */
  function SideJson(orders: seq<RestingOrder>): seq<Json>
    decreases |orders|
  {
    if orders == [] then [] else
    var k := RunLength(orders);
    [LevelJson(orders[0].price, orders[..k])] + SideJson(orders[k..])
  }

  function BookJson(b: Book): Json {
    Object([Member("bids", Array(SideJson(b.bids))), Member("asks", Array(SideJson(b.asks)))])
  }

  /** `names` is the order in which the hash table of books is visited. */
  ghost predicate Enumerates(names: seq<string>, books: map<string, Book>) {
    && (forall i, j :: 0 <= i < j < |names| ==> names[i] != names[j])
    && (forall s :: s in names <==> s in books)
  }

  function BooksJson(books: map<string, Book>, names: seq<string>): (r: seq<Member>)
    requires forall i :: 0 <= i < |names| ==> names[i] in books
  {
    if names == [] then [] else [Member(names[0], BookJson(books[names[0]]))] + BooksJson(books, names[1..])
  }

  function SnapshotJson(e: Engine, names: seq<string>): Json
    requires Enumerates(names, e.books)
  {
    Object([Member("sequence", Int(e.sequence)), Member("books", Object(BooksJson(e.books, names)))])
  }

  // ---------------------------------------------------------------- loading

  function RestoredOrder(symbol: string, side: Side, price: int, id: int, participant: string, remaining: int): AddOrder {
    AddOrder(symbol, id, participant, side, price, remaining, Gtc, Allow)
  }

  function RestoreOrder(e: Engine, symbol: string, side: Side, price: Json, o: Json): Engine {
    var id, participant, remaining := o.Find("order_id"), o.Find("participant_id"), o.Find("remaining");
    if id.None? || participant.None? || remaining.None? then e
    else Rest(e, RestoredOrder(symbol, side, price.AsInt(), id.value.AsInt(), participant.value.AsString(),
                               remaining.value.AsInt()), remaining.value.AsInt())
  }

  function RestoreOrders(e: Engine, symbol: string, side: Side, price: Json, orders: seq<Json>): Engine
    decreases |orders|
  {
    if orders == [] then e
    else RestoreOrders(RestoreOrder(e, symbol, side, price, orders[0]), symbol, side, price, orders[1..])
  }

  function RestoreLevel(e: Engine, symbol: string, side: Side, level: Json): Engine {
    var price, orders := level.Find("price_ticks"), level.Find("orders");
    if price.None? || orders.None? || !orders.value.Array? then e
    else RestoreOrders(e, symbol, side, price.value, orders.value.elements)
  }

  function RestoreLevels(e: Engine, symbol: string, side: Side, levels: seq<Json>): Engine
    decreases |levels|
  {
    if levels == [] then e
    else RestoreLevels(RestoreLevel(e, symbol, side, levels[0]), symbol, side, levels[1..])
  }

  function OpenBook(e: Engine, symbol: string): Engine {
    e.(books := e.books[symbol := BookFor(e, symbol)])
  }

  function RestoreSide(e: Engine, symbol: string, side: Side, levels: Option<Json>): Engine {
    if levels.None? || !levels.value.Array? then e
    else RestoreLevels(OpenBook(e, symbol), symbol, side, levels.value.elements)
  }

  function RestoreBook(e: Engine, symbol: string, data: Json): Engine {
    RestoreSide(RestoreSide(e, symbol, Buy, data.Find("bids")), symbol, Sell, data.Find("asks"))
  }

  /** None when the document is rejected. */
  function RestoreBooks(e: Engine, books: seq<Member>): Option<Engine>
    decreases |books|
  {
    if books == [] then Some(e)
    else if !books[0].value.Object? then None
    else RestoreBooks(RestoreBook(e, books[0].key, books[0].value), books[1..])
  }

  /** `nodes` is where the list allocator stands: loading does not reset it. */
  function LoadJson(nodes: nat, snap: Json): Option<Engine> {
    var sequence, books := snap.Find("sequence"), snap.Find("books");
    if books.None? || !books.value.Object? then None
    else RestoreBooks(Engine(map[], map[], if sequence.Some? then sequence.value.AsInt() else 0, nodes),
                      books.value.members)
  }

  // ---------------------------------------------------------------- a document restores its orders, in order

  function Restored(o: RestingOrder): AddOrder {
    RestoredOrder(o.symbol, o.side, o.price, o.orderId, o.participant, o.remaining)
  }

  function RestAll(e: Engine, orders: seq<RestingOrder>): Engine
    decreases |orders|
  {
    if orders == [] then e else RestAll(Rest(e, Restored(orders[0]), orders[0].remaining), orders[1..])
  }

  predicate Belongs(symbol: string, side: Side, orders: seq<RestingOrder>) {
    forall i :: 0 <= i < |orders| ==> orders[i].symbol == symbol && orders[i].side == side
  }

  lemma {:induction false} RestoreOrderOf(e: Engine, o: RestingOrder)
    ensures RestoreOrder(e, o.symbol, o.side, Int(o.price), OrderJson(o)) == Rest(e, Restored(o), o.remaining)
  {
    var j := OrderJson(o);
    var third := [Member("remaining", Int(o.remaining))];
    var second := [Member("participant_id", String(o.participant))] + third;
    assert j.members == [Member("order_id", Int(o.orderId))] + second;
    FindNext("order_id", Int(o.orderId), second, "participant_id");
    FindNext("order_id", Int(o.orderId), second, "remaining");
    FindNext("participant_id", String(o.participant), third, "remaining");
    assert |"order_id"| == 8 && |"participant_id"| == 14 && |"remaining"| == 9;
  }

  lemma {:induction false} RestoreOrdersOf(e: Engine, symbol: string, side: Side, price: int, orders: seq<RestingOrder>)
    requires Belongs(symbol, side, orders)
    requires forall i :: 0 <= i < |orders| ==> orders[i].price == price
    ensures RestoreOrders(e, symbol, side, Int(price), OrdersJson(orders)) == RestAll(e, orders)
    decreases |orders|
  {
    if orders != [] {
      RestoreOrderOf(e, orders[0]);
      var js := OrdersJson(orders);
      assert js[0] == OrderJson(orders[0]) && js[1..] == OrdersJson(orders[1..]);
      RestoreOrdersOf(Rest(e, Restored(orders[0]), orders[0].remaining), symbol, side, price, orders[1..]);
    }
  }

  lemma {:induction false} RestAllConcat(e: Engine, a: seq<RestingOrder>, b: seq<RestingOrder>)
    ensures RestAll(e, a + b) == RestAll(RestAll(e, a), b)
    decreases |a|
  {
    if a == [] {
      assert a + b == b;
    } else {
      assert (a + b)[1..] == a[1..] + b;
      RestAllConcat(Rest(e, Restored(a[0]), a[0].remaining), a[1..], b);
    }
  }

  lemma {:induction false} LevelFinds(price: int, orders: seq<RestingOrder>)
    ensures LevelJson(price, orders).Find("price_ticks") == Some(Int(price))
    ensures LevelJson(price, orders).Find("orders") == Some(Array(OrdersJson(orders)))
  {
    var second := [Member("orders", Array(OrdersJson(orders)))];
    assert LevelJson(price, orders).members == [Member("price_ticks", Int(price))] + second;
    FindNext("price_ticks", Int(price), second, "orders");
    assert |"price_ticks"| == 11 && |"orders"| == 6;
  }

  lemma {:induction false} RestoreLevelsOf(e: Engine, symbol: string, side: Side, orders: seq<RestingOrder>)
    requires Belongs(symbol, side, orders)
    ensures RestoreLevels(e, symbol, side, SideJson(orders)) == RestAll(e, orders)
    decreases |orders|
  {
    hide RunLength, LevelJson, OrdersJson, RestoreOrders, Rest;
    if orders != [] {
      var k := RunLength(orders);
      var level := LevelJson(orders[0].price, orders[..k]);
      LevelFinds(orders[0].price, orders[..k]);
      RestoreOrdersOf(e, symbol, side, orders[0].price, orders[..k]);
      assert RestoreLevel(e, symbol, side, level) == RestAll(e, orders[..k]);
      var js := SideJson(orders);
      assert js[0] == level && js[1..] == SideJson(orders[k..]);
      RestoreLevelsOf(RestAll(e, orders[..k]), symbol, side, orders[k..]);
      RestAllConcat(e, orders[..k], orders[k..]);
      assert orders[..k] + orders[k..] == orders;
    }
  }

  lemma {:induction false} BookFinds(b: Book)
    ensures BookJson(b).Find("bids") == Some(Array(SideJson(b.bids)))
    ensures BookJson(b).Find("asks") == Some(Array(SideJson(b.asks)))
  {
    var second := [Member("asks", Array(SideJson(b.asks)))];
    assert BookJson(b).members == [Member("bids", Array(SideJson(b.bids)))] + second;
    FindNext("bids", Array(SideJson(b.bids)), second, "asks");
    assert "bids"[0] != "asks"[0];
  }

  lemma {:induction false} RestoreBookOf(e: Engine, symbol: string, b: Book)
    requires Belongs(symbol, Buy, b.bids) && Belongs(symbol, Sell, b.asks)
    ensures RestoreBook(e, symbol, BookJson(b)) ==
            RestAll(OpenBook(RestAll(OpenBook(e, symbol), b.bids), symbol), b.asks)
  {
    BookFinds(b);
    RestoreLevelsOf(OpenBook(e, symbol), symbol, Buy, b.bids);
    RestoreLevelsOf(OpenBook(RestAll(OpenBook(e, symbol), b.bids), symbol), symbol, Sell, b.asks);
  }
}
