/** The engine loaded from a snapshot is well formed, so none of the exceptions of
    the matching core can follow a restart. */
module RestoredEngine {
  import opened Orders
  import opened EngineSpec
  import opened EngineInvariants
  import opened Simulation
  import opened JsonValue
  import opened Snapshot
  import opened SnapshotLaws

  // ---------------------------------------------------------------- loading keeps lists in order, whatever the document

  predicate Filed(symbol: string, side: Side, limit: nat, o: RestingOrder) {
    o.symbol == symbol && o.side == side && o.node < limit
  }

  predicate SideShaped(symbol: string, side: Side, limit: nat, orders: seq<RestingOrder>) {
    (forall i :: 0 <= i < |orders| ==> Filed(symbol, side, limit, orders[i])) && Prioritised(side, orders)
  }

  predicate BookShaped(symbol: string, limit: nat, b: Book) {
    SideShaped(symbol, Buy, limit, b.bids) && SideShaped(symbol, Sell, limit, b.asks)
  }

  predicate Shaped(e: Engine) {
    forall s :: s in e.books ==> BookShaped(s, e.nextNode, e.books[s])
  }

  lemma {:induction false} InsertShaped(symbol: string, side: Side, limit: nat, orders: seq<RestingOrder>, o: RestingOrder)
    requires SideShaped(symbol, side, limit, orders)
    requires Filed(symbol, side, limit + 1, o) && o.node == limit
    ensures SideShaped(symbol, side, limit + 1, Insert(side, orders, o))
  {
    var k := InsertAt(side, orders, o);
    forall j | k < j < |orders|
      ensures Ahead(side, o, orders[j])
    {
      assert Ahead(side, orders[k], orders[j]);
    }
  }

  lemma {:induction false} RoomierBook(symbol: string, limit: nat, b: Book)
    requires BookShaped(symbol, limit, b)
    ensures BookShaped(symbol, limit + 1, b)
  {
  }

  lemma {:induction false} RestShaped(e: Engine, cmd: AddOrder, remaining: int)
    requires Shaped(e)
    ensures Shaped(Rest(e, cmd, remaining))
  {
    hide SideShaped, Insert;
    var o := RestingOrder(cmd.symbol, cmd.orderId, cmd.participant, cmd.side, cmd.price, remaining, e.sequence, e.nextNode);
    var b := BookFor(e, cmd.symbol);
    assert BookShaped(cmd.symbol, e.nextNode, b) by { EmptyShaped(cmd.symbol, e.nextNode); }
    InsertShaped(cmd.symbol, cmd.side, e.nextNode, b.Of(cmd.side), o);
    RoomierBook(cmd.symbol, e.nextNode, b);
    forall s | s in e.books
      ensures BookShaped(s, e.nextNode + 1, e.books[s])
    {
      RoomierBook(s, e.nextNode, e.books[s]);
    }
  }

  lemma {:induction false} EmptyShaped(symbol: string, limit: nat)
    ensures BookShaped(symbol, limit, Book([], []))
  {
  }

  lemma {:induction false} RestoreOrdersShaped(e: Engine, symbol: string, side: Side, price: Json, orders: seq<Json>)
    requires Shaped(e)
    ensures Shaped(RestoreOrders(e, symbol, side, price, orders))
    decreases |orders|
  {
    hide Shaped, Rest;
    if orders != [] {
      var o := orders[0];
      var id, participant, remaining := o.Find("order_id"), o.Find("participant_id"), o.Find("remaining");
      if id.Some? && participant.Some? && remaining.Some? {
        RestShaped(e, RestoredOrder(symbol, side, price.AsInt(), id.value.AsInt(), participant.value.AsString(),
                                    remaining.value.AsInt()), remaining.value.AsInt());
      }
      RestoreOrdersShaped(RestoreOrder(e, symbol, side, price, o), symbol, side, price, orders[1..]);
    }
  }

  lemma {:induction false} RestoreLevelsShaped(e: Engine, symbol: string, side: Side, levels: seq<Json>)
    requires Shaped(e)
    ensures Shaped(RestoreLevels(e, symbol, side, levels))
    decreases |levels|
  {
    hide Shaped, RestoreOrders;
    if levels != [] {
      var price, orders := levels[0].Find("price_ticks"), levels[0].Find("orders");
      if price.Some? && orders.Some? && orders.value.Array? {
        RestoreOrdersShaped(e, symbol, side, price.value, orders.value.elements);
      }
      RestoreLevelsShaped(RestoreLevel(e, symbol, side, levels[0]), symbol, side, levels[1..]);
    }
  }

  lemma {:induction false} RestoreSideShaped(e: Engine, symbol: string, side: Side, levels: Option<Json>)
    requires Shaped(e)
    ensures Shaped(RestoreSide(e, symbol, side, levels))
  {
    hide BookShaped, RestoreLevels;
    EmptyShaped(symbol, e.nextNode);
    assert Shaped(OpenBook(e, symbol));
    if levels.Some? && levels.value.Array? {
      RestoreLevelsShaped(OpenBook(e, symbol), symbol, side, levels.value.elements);
    }
  }

  lemma {:induction false} RestoreBooksShaped(e: Engine, books: seq<Member>)
    requires Shaped(e) && RestoreBooks(e, books).Some?
    ensures Shaped(RestoreBooks(e, books).value)
    decreases |books|
  {
    hide Shaped, RestoreSide;
    if books != [] {
      var data := books[0].value;
      RestoreSideShaped(e, books[0].key, Buy, data.Find("bids"));
      RestoreSideShaped(RestoreSide(e, books[0].key, Buy, data.Find("bids")), books[0].key, Sell, data.Find("asks"));
      RestoreBooksShaped(RestoreBook(e, books[0].key, data), books[1..]);
    }
  }

  /** Any document, however malformed, loads into lists in price and arrival order. */
  lemma {:induction false} LoadShaped(nodes: nat, snap: Json)
    requires LoadJson(nodes, snap).Some?
    ensures Shaped(LoadJson(nodes, snap).value)
  {
    hide RestoreBooks;
    var sequence := snap.Find("sequence");
    RestoreBooksShaped(Engine(map[], map[], if sequence.Some? then sequence.value.AsInt() else 0, nodes),
                       snap.Find("books").value.members);
  }

  // ---------------------------------------------------------------- a mirror of a well-formed engine is well formed

  lemma {:induction false} SideMirrored(f: Renaming, s: string, d: Side, limit: nat, limit': nat,
                                      a: seq<RestingOrder>, b: seq<RestingOrder>)
    requires SameSide(f, s, d, a, b) && SideOk(s, d, limit, a) && SideShaped(s, d, limit', b)
    ensures SideOk(s, d, limit', b)
  {
    forall i | 0 <= i < |b|
      ensures OrderOk(s, d, limit', b[i])
    {
      assert SameOrder(f, s, d, a[i], b[i]) && OrderOk(s, d, limit, a[i]) && Filed(s, d, limit', b[i]);
    }
  }

  lemma {:induction false} BookMirrored(f: Renaming, s: string, limit: nat, limit': nat, a: Book, b: Book)
    requires SameBook(f, s, a, b) && BookOk(s, limit, a) && BookShaped(s, limit', b)
    ensures BookOk(s, limit', b)
  {
    SideMirrored(f, s, Buy, limit, limit', a.bids, b.bids);
    SideMirrored(f, s, Sell, limit, limit', a.asks, b.asks);
    if b.bids != [] && b.asks != [] {
      assert SameOrder(f, s, Buy, a.bids[0], b.bids[0]) && SameOrder(f, s, Sell, a.asks[0], b.asks[0]);
    }
  }

  lemma {:induction false} PointsMirrored(f: Renaming, a: Engine, b: Engine, id: int)
    requires Mirrors(All, f, a, b) && WellFormed(a) && id in b.index
    ensures Points(b.books, id, b.index[id])
  {
    hide BooksOk, Lookup;
    var la, lb := a.index[id], b.index[id];
    assert SameLocation(f, la, lb) && Points(a.books, id, la);
    BookForSame(All, f, a, b, la.symbol);
    LookupSame(f, la.symbol, la.side, BookFor(a, la.symbol).Of(la.side), BookFor(b, la.symbol).Of(la.side), la.node);
  }

  lemma {:induction false} MirrorOk(f: Renaming, a: Engine, b: Engine)
    requires Mirrors(All, f, a, b) && WellFormed(a) && Shaped(b)
    ensures WellFormed(b)
  {
    hide BookOk, BookShaped, Points;
    forall s | s in b.books
      ensures BookOk(s, b.nextNode, b.books[s])
    {
      BookMirrored(f, s, a.nextNode, b.nextNode, a.books[s], b.books[s]);
    }
    forall id | id in b.index
      ensures Points(b.books, id, b.index[id])
    {
      PointsMirrored(f, a, b, id);
    }
  }

  /** What is loaded from the snapshot of a well-formed engine is well formed, even
      when resting ids were reused. */
  lemma {:induction false} RestoredOk(e: Engine, names: seq<string>, nodes: nat)
    requires WellFormed(e) && Enumerates(names, e.books)
    ensures var r := LoadJson(nodes, SnapshotJson(e, names));
            r.Some? && WellFormed(r.value)
  {
    hide WellFormed, Mirrors, SnapshotJson, LoadJson, Shaped, Reindexed;
    var f := RestoreMirrors(e, names, nodes);
    ReindexedOk(e, names);
    LoadShaped(nodes, SnapshotJson(e, names));
    MirrorOk(f, Reindexed(e, names), LoadJson(nodes, SnapshotJson(e, names)).value);
  }
}
