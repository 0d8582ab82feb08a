/** Inputs on which the engine does not do what one might expect of it. */
module Corners {
  import opened Orders
  import opened EngineSpec
  import opened EngineInvariants
  import opened IndexLaws
  import opened JsonValue
  import opened Snapshot
  import opened SnapshotLaws
  import opened MatchingLaws
  import opened Ledger

  function Offer(id: int, participant: string, price: int, quantity: int): AddOrder {
    AddOrder("S", id, participant, Sell, price, quantity, Gtc, Allow)
  }

  /** An order that meets an empty opposite side only rests. */
  lemma {:induction false} OfferRests(e: Engine, cmd: AddOrder)
    requires cmd.tif == Gtc && cmd.quantity > 0 && BookFor(e, cmd.symbol).Of(Opposite(cmd.side)) == []
    ensures Step(e, Add(cmd)).engine == Rest(During(e, cmd, StartMatching(e, cmd)).(sequence := e.sequence + 1), cmd, cmd.quantity)
                                        .(sequence := e.sequence + 2)
  {
  }

  // ---------------------------------------------------------------- a reused id does not survive a snapshot

  const FIRST := Offer(1, "a", 12, 7)
  const SECOND := Offer(1, "b", 10, 5)
  const REUSED := [Add(FIRST), Add(SECOND)]

  function Resting(cmd: AddOrder, entered: int, node: nat): RestingOrder {
    RestingOrder(cmd.symbol, cmd.orderId, cmd.participant, cmd.side, cmd.price, cmd.quantity, entered, node)
  }

  lemma {:induction false} RestOne(e: Engine, cmd: AddOrder)
    requires cmd.side == Sell && BookFor(e, cmd.symbol) == Book([], [])
    ensures Rest(e, cmd, cmd.quantity) ==
            Engine(e.books[cmd.symbol := Book([], [Resting(cmd, e.sequence, e.nextNode)])],
                   e.index[cmd.orderId := Location(cmd.symbol, Sell, cmd.price, e.nextNode)], e.sequence, e.nextNode + 1)
  {
  }

  lemma {:induction false} RestBehind(e: Engine, cmd: AddOrder, o: RestingOrder)
    requires cmd.side == Sell && BookFor(e, cmd.symbol) == Book([], [o]) && o.price <= cmd.price
    ensures Rest(e, cmd, cmd.quantity) ==
            Engine(e.books[cmd.symbol := Book([], [o, Resting(cmd, e.sequence, e.nextNode)])],
                   e.index[cmd.orderId := Location(cmd.symbol, Sell, cmd.price, e.nextNode)], e.sequence, e.nextNode + 1)
  {
    var last := Resting(cmd, e.sequence, e.nextNode);
    assert Insert(Sell, [o][1..], last) == [last];
    assert Insert(Sell, [o], last) == [o] + [last] == [o, last];
  }

  lemma {:induction false} RestAhead(e: Engine, cmd: AddOrder, o: RestingOrder)
    requires cmd.side == Sell && BookFor(e, cmd.symbol) == Book([], [o]) && cmd.price < o.price
    ensures Rest(e, cmd, cmd.quantity) ==
            Engine(e.books[cmd.symbol := Book([], [Resting(cmd, e.sequence, e.nextNode), o])],
                   e.index[cmd.orderId := Location(cmd.symbol, Sell, cmd.price, e.nextNode)], e.sequence, e.nextNode + 1)
  {
    var first := Resting(cmd, e.sequence, e.nextNode);
    assert Insert(Sell, [o], first) == [first] + [o] == [first, o];
  }

  lemma {:induction false} ReusedRuns()
    ensures var e := Run(EMPTY_ENGINE, REUSED);
            && e.books == map["S" := Book([], [Resting(SECOND, 3, 1), Resting(FIRST, 1, 0)])]
            && e.index == map[1 := Location("S", Sell, 10, 1)] && e.sequence == 4
  {
    hide SpecAdd, Rest;
    OfferRests(EMPTY_ENGINE, FIRST);
    RestOne(During(EMPTY_ENGINE, FIRST, StartMatching(EMPTY_ENGINE, FIRST)).(sequence := 1), FIRST);
    var e1 := Step(EMPTY_ENGINE, Add(FIRST)).engine;
    assert e1 == Engine(map["S" := Book([], [Resting(FIRST, 1, 0)])], map[1 := Location("S", Sell, 12, 0)], 2, 1);
    OfferRests(e1, SECOND);
    RestAhead(During(e1, SECOND, StartMatching(e1, SECOND)).(sequence := 3), SECOND, Resting(FIRST, 1, 0));
    assert REUSED[1..] == [Add(SECOND)] && REUSED[1..][1..] == [];
    assert Run(e1, REUSED[1..]) == Run(Step(e1, Add(SECOND)).engine, []);
  }

  /** Loading the snapshot indexes the order restored last, not the one added last. */
  lemma {:induction false} ReusedLoads(nodes: nat)
    ensures var e := Run(EMPTY_ENGINE, REUSED);
            && Enumerates(["S"], e.books)
            && var r := LoadJson(nodes, SnapshotJson(e, ["S"]));
               && r.Some? && r.value.sequence == 4
               && r.value.books == map["S" := Book([], [Resting(SECOND, 4, nodes), Resting(FIRST, 4, nodes + 1)])]
               && r.value.index == map[1 := Location("S", Sell, 12, nodes + 1)]
  {
    hide Run, LoadJson, BookJson, RestoreBook, SnapshotJson, Rest, Insert;
    ReusedRuns();
    var e := Run(EMPTY_ENGINE, REUSED);
    assert Enumerates(["S"], e.books);
    var b := e.books["S"];
    LoadFinds(e, ["S"], nodes);
    var e0 := Engine(map[], map[], 4, nodes);
    RestoreBookOf(e0, "S", b);
    OneBook(e0, e.books, b);
    var e1 := OpenBook(RestAll(OpenBook(e0, "S"), []), "S");
    assert e1 == Engine(map["S" := Book([], [])], map[], 4, nodes);
    RestOne(e1, SECOND);
    var e2 := Rest(e1, SECOND, 5);
    assert e2 == Engine(map["S" := Book([], [Resting(SECOND, 4, nodes)])], map[1 := Location("S", Sell, 10, nodes)], 4, nodes + 1);
    RestBehind(e2, FIRST, Resting(SECOND, 4, nodes));
    assert Restored(b.asks[0]) == SECOND && Restored(b.asks[1]) == FIRST;
    assert b.asks[1..] == [b.asks[1]] && b.asks[1..][1..] == [];
    assert RestAll(e1, b.asks) == RestAll(Rest(e2, FIRST, 7), []);
  }

  lemma {:induction false} OneBook(e: Engine, books: map<string, Book>, b: Book)
    requires "S" in books && books["S"] == b
    ensures RestoreBooks(e, BooksJson(books, ["S"])) == Some(RestoreBook(e, "S", BookJson(b)))
  {
    hide RestoreBook;
    var one := [Member("S", BookJson(b))];
    assert ["S"][1..] == [] && one[1..] == [];
    assert BooksJson(books, ["S"]) == one;
  }

  lemma {:induction false} CancelsAt(e: Engine, k: nat)
    requires "S" in e.books && |e.books["S"].asks| == 2 && k < 2
    requires e.books["S"].asks[0].node != e.books["S"].asks[1].node
    requires 1 in e.index && e.index[1].symbol == "S" && e.index[1].side == Sell && e.index[1].node == e.books["S"].asks[k].node
    ensures Replies(e, [Cancel(CancelOrder("S", 1))])[0].events ==
            Stamp(e.sequence, [Event("S", Cancelled(1, e.books["S"].asks[k].remaining, None))])
  {
    var asks := e.books["S"].asks;
    if k == 1 {
      assert Lookup(asks, asks[1].node) == Lookup(asks[1..], asks[1].node);
    }
  }

  /** The law that snapshots are invisible needs its condition.  Two orders share an
      id; cancelling it removes the newer one before a snapshot, the dearer one after. */
  lemma {:induction false} ReuseBreaksSnapshots(nodes: nat)
    ensures var e, cancel := Run(EMPTY_ENGINE, REUSED), [Cancel(CancelOrder("S", 1))];
            && Enumerates(["S"], e.books) && !IndexesLast(e, ["S"])
            && var r := LoadJson(nodes, SnapshotJson(e, ["S"]));
               && r.Some? && Replies(r.value, cancel) != Replies(e, cancel)
               && Replies(e, cancel)[0].events == [ExecEvent(5, Event("S", Cancelled(1, 5, None)))]
               && Replies(r.value, cancel)[0].events == [ExecEvent(5, Event("S", Cancelled(1, 7, None)))]
  {
    hide Run, LoadJson, SnapshotJson, Replies;
    ReusedRuns();
    ReusedLoads(nodes);
    var e := Run(EMPTY_ENGINE, REUSED);
    var r := LoadJson(nodes, SnapshotJson(e, ["S"])).value;
    CancelsAt(e, 0);
    CancelsAt(r, 1);
    var cancel := [Cancel(CancelOrder("S", 1))];
    assert Replies(e, cancel)[0].events[0].event.payload.remaining == 5;
    assert Replies(r, cancel)[0].events[0].event.payload.remaining == 7;
    if IndexesLast(e, ["S"]) {
      SnapshotIsTransparent(REUSED, ["S"], nodes, cancel);
    }
  }

  // ---------------------------------------------------------------- a reused id can survive a snapshot

  const REUSED_BEHIND := [Add(SECOND), Add(FIRST)]

  lemma {:induction false} BehindRuns()
    ensures var e := Run(EMPTY_ENGINE, REUSED_BEHIND);
            && e.books == map["S" := Book([], [Resting(SECOND, 1, 0), Resting(FIRST, 3, 1)])]
            && e.index == map[1 := Location("S", Sell, 12, 1)]
  {
    hide SpecAdd, Rest;
    OfferRests(EMPTY_ENGINE, SECOND);
    RestOne(During(EMPTY_ENGINE, SECOND, StartMatching(EMPTY_ENGINE, SECOND)).(sequence := 1), SECOND);
    var e1 := Step(EMPTY_ENGINE, Add(SECOND)).engine;
    assert e1 == Engine(map["S" := Book([], [Resting(SECOND, 1, 0)])], map[1 := Location("S", Sell, 10, 0)], 2, 1);
    OfferRests(e1, FIRST);
    RestBehind(During(e1, FIRST, StartMatching(e1, FIRST)).(sequence := 3), FIRST, Resting(SECOND, 1, 0));
    assert REUSED_BEHIND[1..] == [Add(FIRST)] && REUSED_BEHIND[1..][1..] == [];
    assert Run(e1, REUSED_BEHIND[1..]) == Run(Step(e1, Add(FIRST)).engine, []);
  }

  lemma {:induction false} TwoIndexed(a: RestingOrder, b: RestingOrder)
    requires a.orderId == b.orderId
    ensures IndexAll(map[], [a, b]) == map[b.orderId := LocationOf(b)]
  {
    var none: map<int, Location> := map[];
    var first := none[a.orderId := LocationOf(a)];
    assert [a, b][1..] == [b] && [b][1..] == [];
    assert IndexAll(first, [b]) == IndexAll(first[b.orderId := LocationOf(b)], []);
  }

  /** Not every reuse shows: offered again at a worse price, the id keeps leading to the
      order that a snapshot indexes last, and nothing changes. */
  lemma {:induction false} ReuseMayStayInvisible(nodes: nat, after: seq<Command>)
    ensures var e := Run(EMPTY_ENGINE, REUSED_BEHIND);
            && !Indexed(e) && Enumerates(["S"], e.books) && IndexesLast(e, ["S"])
            && var r := LoadJson(nodes, SnapshotJson(e, ["S"]));
               r.Some? && Replies(r.value, after) == Replies(e, after)
  {
    hide Run, LoadJson, SnapshotJson, Replies;
    BehindRuns();
    var e := Run(EMPTY_ENGINE, REUSED_BEHIND);
    var b := e.books["S"];
    assert BookFor(e, "S") == b && b.asks[0].orderId == 1 && b.asks[0].price == 10;
    assert ["S"][1..] == [];
    assert Written(e.books, ["S"]) == b.asks;
    assert b.asks[1..] == [b.asks[1]] && b.asks[1..][1..] == [];
    TwoIndexed(b.asks[0], b.asks[1]);
    assert b.asks == [b.asks[0], b.asks[1]];
    SnapshotIsTransparent(REUSED_BEHIND, ["S"], nodes, after);
  }

  // ---------------------------------------------------------------- fill or kill, partly filled

  /** Five of its own and five of another's are enough for the pre-check of a
      fill-or-kill order for ten, but its own are removed instead of traded. */
  const OWN := Offer(1, "a", 10, 5)
  const OTHERS := Offer(2, "b", 10, 5)
  const KILLED := AddOrder("S", 3, "a", Buy, 10, 10, Fok, CancelPassive)

  lemma {:induction false} TwoOffers()
    ensures BookFor(Run(EMPTY_ENGINE, [Add(OWN), Add(OTHERS)]), "S") == Book([], [Resting(OWN, 1, 0), Resting(OTHERS, 3, 1)])
  {
    hide SpecAdd, Rest;
    OfferRests(EMPTY_ENGINE, OWN);
    var e0 := During(EMPTY_ENGINE, OWN, StartMatching(EMPTY_ENGINE, OWN)).(sequence := 1);
    RestOne(e0, OWN);
    var e1 := Step(EMPTY_ENGINE, Add(OWN)).engine;
    OfferRests(e1, OTHERS);
    var e2 := During(e1, OTHERS, StartMatching(e1, OTHERS)).(sequence := 3);
    RestBehind(e2, OTHERS, Resting(OWN, 1, 0));
    var all := [Add(OWN), Add(OTHERS)];
    assert all[1..] == [Add(OTHERS)] && all[1..][1..] == [];
    assert Run(e1, all[1..]) == Run(Step(e1, Add(OTHERS)).engine, []);
  }

  lemma {:induction false} Reach(orders: seq<RestingOrder>)
    requires orders == [Resting(OWN, 1, 0), Resting(OTHERS, 3, 1)]
    ensures AvailableVolume(Sell, orders, 10) == 10 && Fillable(KILLED, orders) == 5
  {
    assert orders[1..] == [Resting(OTHERS, 3, 1)] && orders[1..][1..] == [];
    assert Fillable(KILLED, orders[1..]) == 5 + Fillable(KILLED, []);
    assert AvailableVolume(Sell, orders[1..], 10) == 5 + AvailableVolume(Sell, [], 10);
  }

  lemma {:induction false} FokLeftShort()
    ensures var e := Run(EMPTY_ENGINE, [Add(OWN), Add(OTHERS)]);
            var r := SpecAdd(e, KILLED);
            && SilentlyShort(e, KILLED) && Traded(r.trades) == 5 && Unreported(e, KILLED) == 5
  {
    hide Run, WellFormed, Match;
    var e := Run(EMPTY_ENGINE, [Add(OWN), Add(OTHERS)]);
    TwoOffers();
    Reach(Opposing(e, KILLED));
    RunOk(EMPTY_ENGINE, [Add(OWN), Add(OTHERS)]);
    StartTradable(e, KILLED);
    MatchTrades(KILLED, StartMatching(e, KILLED));
  }
}
