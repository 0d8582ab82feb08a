/** What every run keeps: a well-formed, uncrossed book, an index that never
    dangles, and so no exception. */
module EngineInvariants {
  import opened Orders
  import opened EngineSpec

  // ---------------------------------------------------------------- the invariant

  /** Price first, then arrival: list nodes are numbered as they arrive, and never shared. */
  predicate Ahead(side: Side, a: RestingOrder, b: RestingOrder) {
    && a.node != b.node
    && (Better(side, a.price, b.price) || (a.price == b.price && a.node < b.node))
  }

  predicate Prioritised(side: Side, orders: seq<RestingOrder>) {
    forall i, j :: 0 <= i < j < |orders| ==> Ahead(side, orders[i], orders[j])
  }

  predicate OrderOk(symbol: string, side: Side, limit: nat, o: RestingOrder) {
    o.symbol == symbol && o.side == side && o.remaining > 0 && o.node < limit
  }

  predicate SideOk(symbol: string, side: Side, limit: nat, orders: seq<RestingOrder>) {
    && (forall i :: 0 <= i < |orders| ==> OrderOk(symbol, side, limit, orders[i]))
    && Prioritised(side, orders)
  }

  predicate BookOk(symbol: string, limit: nat, b: Book) {
    SideOk(symbol, Buy, limit, b.bids) && SideOk(symbol, Sell, limit, b.asks) && !Crossed(b)
  }

  /** `loc` leads to a live order with that id at that price. */
  predicate Points(books: map<string, Book>, id: int, loc: Location) {
    && loc.symbol in books
    && var o := Located(books, loc);
       o.Some? && o.value.orderId == id && o.value.price == loc.price
  }

  predicate BooksOk(books: map<string, Book>, limit: nat) {
    forall s :: s in books ==> BookOk(s, limit, books[s])
  }

  predicate IndexOk(books: map<string, Book>, index: map<int, Location>) {
    forall id :: id in index ==> Points(books, id, index[id])
  }

  predicate WellFormed(e: Engine) {
    BooksOk(e.books, e.nextNode) && IndexOk(e.books, e.index)
  }

  lemma {:induction false} BookForOk(e: Engine, symbol: string)
    requires BooksOk(e.books, e.nextNode)
    ensures BookOk(symbol, e.nextNode, BookFor(e, symbol))
  {
  }

  /** Event numbers play no part in well-formedness. */
  lemma {:induction false} Renumbered(e: Engine, e1: Engine)
    requires WellFormed(e) && e1 == e.(sequence := e1.sequence)
    ensures WellFormed(e1)
  {
  }

  // ---------------------------------------------------------------- lists

  lemma {:induction false} InsertAt(side: Side, orders: seq<RestingOrder>, o: RestingOrder) returns (k: nat)
    ensures k <= |orders| && Insert(side, orders, o) == orders[..k] + [o] + orders[k..]
    ensures forall i :: 0 <= i < k ==> !Better(side, o.price, orders[i].price)
    ensures k < |orders| ==> Better(side, o.price, orders[k].price)
  {
    if orders == [] || Better(side, o.price, orders[0].price) {
      k := 0;
    } else {
      var j := InsertAt(side, orders[1..], o);
      k := j + 1;
      assert orders[..k] + [o] + orders[k..] == [orders[0]] + (orders[1..][..j] + [o] + orders[1..][j..]);
    }
  }

  lemma {:induction false} InsertOk(symbol: string, side: Side, limit: nat, orders: seq<RestingOrder>, o: RestingOrder)
    requires SideOk(symbol, side, limit, orders)
    requires OrderOk(symbol, side, limit + 1, o) && o.node == limit
    ensures SideOk(symbol, side, limit + 1, Insert(side, orders, o))
  {
    hide Insert;
    var k := InsertAt(side, orders, o);
    forall j | k < j < |orders|
      ensures Ahead(side, o, orders[j])
    {
      assert Ahead(side, orders[k], orders[j]);
    }
  }

  lemma {:induction false} InsertLookup(side: Side, orders: seq<RestingOrder>, o: RestingOrder, node: nat)
    requires forall i :: 0 <= i < |orders| ==> orders[i].node < o.node
    ensures Lookup(Insert(side, orders, o), node) == if node == o.node then Some(o) else Lookup(orders, node)
  {
    if orders != [] && !Better(side, o.price, orders[0].price) {
      InsertLookup(side, orders[1..], o, node);
    } else if orders != [] {
      assert ([o] + orders)[1..] == orders;
      LookupNone(orders, o.node);
    }
  }

  lemma {:induction false} LookupNone(orders: seq<RestingOrder>, node: nat)
    requires forall i :: 0 <= i < |orders| ==> orders[i].node != node
    ensures Lookup(orders, node) == None
  {
    if orders != [] {
      LookupNone(orders[1..], node);
    }
  }

  /** A node names at most one position. */
  lemma {:induction false} LookupAt(orders: seq<RestingOrder>, node: nat) returns (k: nat)
    requires Lookup(orders, node).Some?
    ensures k < |orders| && orders[k].node == node && Lookup(orders, node) == Some(orders[k])
    ensures Remove(orders, node) == orders[..k] + orders[k + 1..]
  {
    if orders[0].node == node {
      k := 0;
    } else {
      var j := LookupAt(orders[1..], node);
      k := j + 1;
      assert orders[..k] + orders[k + 1..] == [orders[0]] + (orders[1..][..j] + orders[1..][j + 1..]);
    }
  }

  lemma {:induction false} RemoveLookup(orders: seq<RestingOrder>, node: nat, other: nat)
    requires node != other
    ensures Lookup(Remove(orders, node), other) == Lookup(orders, other)
  {
    if orders != [] && orders[0].node != node {
      RemoveLookup(orders[1..], node, other);
    }
  }

  /** Where an index entry leads. */
  lemma {:induction false} Pointed(e: Engine, id: int) returns (k: nat)
    requires WellFormed(e) && id in e.index
    ensures var loc := e.index[id];
            var orders := BookFor(e, loc.symbol).Of(loc.side);
            && loc.symbol in e.books && k < |orders|
            && orders[k].orderId == id && orders[k].price == loc.price && orders[k].node == loc.node
            && Located(e.books, loc) == Some(orders[k])
            && Remove(orders, loc.node) == orders[..k] + orders[k + 1..]
  {
    hide Lookup, Remove, BooksOk;
    var loc := e.index[id];
    assert Points(e.books, id, loc);
    k := LookupAt(BookFor(e, loc.symbol).Of(loc.side), loc.node);
  }

  // ---------------------------------------------------------------- one change to one side

  function Popped(e: Engine, symbol: string, side: Side): Engine
    requires BookFor(e, symbol).Of(side) != []
  {
    var orders := BookFor(e, symbol).Of(side);
    SetSide(e, symbol, side, orders[1..]).(index := e.index - {orders[0].orderId})
  }

  function Reduced(e: Engine, symbol: string, side: Side, left: int): Engine
    requires BookFor(e, symbol).Of(side) != []
  {
    var orders := BookFor(e, symbol).Of(side);
    SetSide(e, symbol, side, [orders[0].(remaining := left)] + orders[1..])
  }

  lemma {:induction false} PoppedOk(e: Engine, symbol: string, side: Side)
    requires WellFormed(e) && BookFor(e, symbol).Of(side) != []
    ensures WellFormed(Popped(e, symbol, side))
  {
    var e1 := Popped(e, symbol, side);
    var orders := BookFor(e, symbol).Of(side);
    BookForOk(e, symbol);
    assert SideOk(symbol, side, e.nextNode, orders[1..]);
    assert !Crossed(BookFor(e1, symbol)) by {
      if |orders| > 1 {
        assert Ahead(side, orders[0], orders[1]);
      }
    }
    forall id | id in e1.index
      ensures Points(e1.books, id, e1.index[id])
    {
      assert Points(e.books, id, e.index[id]);
    }
  }

  lemma {:induction false} ReduceSideOk(symbol: string, side: Side, limit: nat, orders: seq<RestingOrder>, left: int)
    requires SideOk(symbol, side, limit, orders) && orders != [] && left > 0
    ensures SideOk(symbol, side, limit, [orders[0].(remaining := left)] + orders[1..])
  {
    var orders1 := [orders[0].(remaining := left)] + orders[1..];
    forall i, j | 0 <= i < j < |orders1|
      ensures Ahead(side, orders1[i], orders1[j])
    {
      assert Ahead(side, orders[i], orders[j]);
    }
  }

  lemma {:induction false} ReducedOk(e: Engine, symbol: string, side: Side, left: int)
    requires WellFormed(e) && BookFor(e, symbol).Of(side) != [] && left > 0
    ensures WellFormed(Reduced(e, symbol, side, left))
  {
    hide SideOk;
    var e1 := Reduced(e, symbol, side, left);
    var orders := BookFor(e, symbol).Of(side);
    BookForOk(e, symbol);
    ReduceSideOk(symbol, side, e.nextNode, orders, left);
    forall id | id in e1.index
      ensures Points(e1.books, id, e1.index[id])
    {
      assert Points(e.books, id, e.index[id]);
      assert BookFor(e1, symbol).Of(side)[1..] == orders[1..];
    }
  }

  function Removed(e: Engine, id: int): Engine
    requires id in e.index
  {
    var loc := e.index[id];
    SetSide(e, loc.symbol, loc.side, Remove(BookFor(e, loc.symbol).Of(loc.side), loc.node)).(index := e.index - {id})
  }

  lemma {:induction false} RemoveSideOk(symbol: string, side: Side, limit: nat, orders: seq<RestingOrder>, node: nat)
    requires SideOk(symbol, side, limit, orders) && Lookup(orders, node).Some?
    ensures SideOk(symbol, side, limit, Remove(orders, node))
    ensures Remove(orders, node) != [] ==> !Better(side, Remove(orders, node)[0].price, orders[0].price)
  {
    hide Lookup, Remove, OrderOk;
    var k := LookupAt(orders, node);
    var rest := orders[..k] + orders[k + 1..];
    assert forall i :: 0 <= i < |rest| ==> rest[i] == orders[if i < k then i else i + 1];
    if k == 0 && |orders| > 1 {
      assert Ahead(side, orders[0], orders[1]);
    }
  }

  lemma {:induction false} RemoveOk(symbol: string, limit: nat, b: Book, side: Side, node: nat)
    requires BookOk(symbol, limit, b) && Lookup(b.Of(side), node).Some?
    ensures BookOk(symbol, limit, b.With(side, Remove(b.Of(side), node)))
  {
    hide SideOk, Lookup, Remove;
    RemoveSideOk(symbol, side, limit, b.Of(side), node);
    if b.Of(side) == [] {
      EmptyHasNone(node);
    }
  }

  lemma {:induction false} EmptyHasNone(node: nat)
    ensures Lookup([], node) == None
  {
  }

  lemma {:induction false} RemovedOk(e: Engine, id: int)
    requires WellFormed(e) && id in e.index
    ensures WellFormed(Removed(e, id))
  {
    var loc := e.index[id];
    var orders := BookFor(e, loc.symbol).Of(loc.side);
    var e1 := Removed(e, id);
    assert Points(e.books, id, loc);
    RemoveOk(loc.symbol, e.nextNode, e.books[loc.symbol], loc.side, loc.node);
    forall id1 | id1 in e1.index
      ensures Points(e1.books, id1, e1.index[id1])
    {
      assert Points(e.books, id1, e.index[id1]);
      if e.index[id1].node != loc.node {
        RemoveLookup(orders, loc.node, e.index[id1].node);
      }
    }
  }

  lemma {:induction false} RestIndexOk(e: Engine, cmd: AddOrder, remaining: int)
    requires WellFormed(e)
    ensures IndexOk(Rest(e, cmd, remaining).books, Rest(e, cmd, remaining).index)
  {
    hide Lookup, Insert;
    var e1 := Rest(e, cmd, remaining);
    var orders := BookFor(e, cmd.symbol).Of(cmd.side);
    var o := RestingOrder(cmd.symbol, cmd.orderId, cmd.participant, cmd.side, cmd.price, remaining,
                          e.sequence, e.nextNode);
    BookForOk(e, cmd.symbol);
    assert forall i :: 0 <= i < |orders| ==> OrderOk(cmd.symbol, cmd.side, e.nextNode, orders[i]);
    forall id | id in e1.index
      ensures Points(e1.books, id, e1.index[id])
    {
      InsertLookup(cmd.side, orders, o, e1.index[id].node);
      if id != cmd.orderId {
        assert Points(e.books, id, e.index[id]);
        var other := e.index[id];
        if other.symbol == cmd.symbol && other.side == cmd.side {
          var k := LookupAt(orders, other.node);
        }
      }
    }
  }

  lemma {:induction false} MoreNodes(symbol: string, side: Side, limit: nat, orders: seq<RestingOrder>)
    requires SideOk(symbol, side, limit, orders)
    ensures SideOk(symbol, side, limit + 1, orders)
  {
  }

  lemma {:induction false} RestOk(e: Engine, cmd: AddOrder, remaining: int)
    requires WellFormed(e) && remaining > 0
    requires var b := BookFor(e, cmd.symbol).Of(Opposite(cmd.side));
             b == [] || Better(Opposite(cmd.side), cmd.price, b[0].price)
    ensures WellFormed(Rest(e, cmd, remaining)) && !Crossed(BookFor(Rest(e, cmd, remaining), cmd.symbol))
  {
    hide SideOk, Insert, IndexOk;
    var e1 := Rest(e, cmd, remaining);
    var orders := BookFor(e, cmd.symbol).Of(cmd.side);
    var o := RestingOrder(cmd.symbol, cmd.orderId, cmd.participant, cmd.side, cmd.price, remaining,
                          e.sequence, e.nextNode);
    BookForOk(e, cmd.symbol);
    InsertOk(cmd.symbol, cmd.side, e.nextNode, orders, o);
    RestIndexOk(e, cmd, remaining);
    var k := InsertAt(cmd.side, orders, o);
    forall s | s in e1.books
      ensures BookOk(s, e1.nextNode, e1.books[s])
    {
      BookForOk(e, s);
      MoreNodes(s, Buy, e.nextNode, BookFor(e, s).bids);
      MoreNodes(s, Sell, e.nextNode, BookFor(e, s).asks);
    }
  }

  // ---------------------------------------------------------------- the matching loop

  predicate Sound(e: Engine, cmd: AddOrder, m: Matching) {
    WellFormed(During(e, cmd, m)) && m.fault == NoFault
  }

  lemma {:induction false} DuringTwice(e: Engine, cmd: AddOrder, m: Matching, m1: Matching)
    ensures During(During(e, cmd, m), cmd, m1) == During(e, cmd, m1)
  {
  }

  lemma {:induction false} PreventSelfTradeSound(e: Engine, cmd: AddOrder, m: Matching)
    requires Sound(e, cmd, m) && m.opposite != []
    ensures Sound(e, cmd, PreventSelfTrade(cmd, m))
  {
    hide WellFormed;
    var now := During(e, cmd, m);
    PoppedOk(now, cmd.symbol, Opposite(cmd.side));
    DuringTwice(e, cmd, m, PreventSelfTrade(cmd, m));
    DuringTwice(e, cmd, m, m);
  }

  lemma {:induction false} FillCases(cmd: AddOrder, m: Matching)
    requires m.Active() && m.opposite != []
    requires m.opposite[0].remaining > 0 && m.opposite[0].symbol == cmd.symbol
    ensures var passive, m1 := m.opposite[0], Fill(cmd, m);
            && m1.fault == NoFault
            && if passive.remaining <= m.remaining then
                 m1.opposite == m.opposite[1..] && m1.index == m.index - {passive.orderId}
               else
                 && m1.opposite == [passive.(remaining := passive.remaining - m.remaining)] + m.opposite[1..]
                 && m1.index == m.index
  {
    assert forall p :: ([p] + m.opposite[1..])[1..] == m.opposite[1..];
  }

  lemma {:induction false} HeadOk(e: Engine, symbol: string, side: Side)
    requires WellFormed(e) && BookFor(e, symbol).Of(side) != []
    ensures OrderOk(symbol, side, e.nextNode, BookFor(e, symbol).Of(side)[0])
  {
    BookForOk(e, symbol);
  }

  lemma {:induction false} FillSound(e: Engine, cmd: AddOrder, m: Matching)
    requires Sound(e, cmd, m) && m.Active() && m.opposite != []
    ensures Sound(e, cmd, Fill(cmd, m))
  {
    hide WellFormed, Fill;
    var now, opp := During(e, cmd, m), Opposite(cmd.side);
    var passive := m.opposite[0];
    HeadOk(now, cmd.symbol, opp);
    FillCases(cmd, m);
    DuringTwice(e, cmd, m, Fill(cmd, m));
    if m.remaining < passive.remaining {
      ReducedOk(now, cmd.symbol, opp, passive.remaining - m.remaining);
    } else {
      PoppedOk(now, cmd.symbol, opp);
    }
  }

  lemma {:induction false} MatchSound(e: Engine, cmd: AddOrder, m: Matching)
    requires Sound(e, cmd, m)
    ensures Sound(e, cmd, Match(cmd, m)) && Done(cmd, Match(cmd, m))
    decreases |m.opposite| + if m.Active() then 1 else 0
  {
    if !Done(cmd, m) {
      if SelfMatch(cmd, m.opposite[0]) {
        PreventSelfTradeSound(e, cmd, m);
      } else {
        FillSound(e, cmd, m);
      }
      MatchSound(e, cmd, MatchStep(cmd, m));
    }
  }

  // ---------------------------------------------------------------- commands and runs

  lemma {:induction false} StartOk(e: Engine, cmd: AddOrder)
    requires WellFormed(e)
    ensures Sound(e, cmd, StartMatching(e, cmd))
  {
    var start := During(e, cmd, StartMatching(e, cmd));
    BookForOk(e, cmd.symbol);
    forall id | id in start.index
      ensures Points(start.books, id, start.index[id])
    {
      assert Points(e.books, id, e.index[id]);
    }
  }

  lemma {:induction false} SettleOk(e: Engine, cmd: AddOrder, m: Matching)
    requires Sound(e, cmd, m) && Done(cmd, m)
    ensures Settle(e, cmd, m).fault == NoFault && WellFormed(Settle(e, cmd, m).engine)
  {
    var e1 := During(e, cmd, m).(sequence := e.sequence + |m.events|);
    var r := Settle(e, cmd, m).engine;
    if m.Active() && cmd.tif == Gtc {
      assert BookFor(e1, cmd.symbol).Of(Opposite(cmd.side)) == m.opposite;
      RestOk(e1, cmd, m.remaining);
      assert r == Rest(e1, cmd, m.remaining).(sequence := r.sequence);
    } else {
      assert r == e1.(sequence := r.sequence);
    }
  }

  lemma {:induction false} AddOk(e: Engine, cmd: AddOrder)
    requires WellFormed(e)
    ensures SpecAdd(e, cmd).fault == NoFault && WellFormed(SpecAdd(e, cmd).engine)
  {
    StartOk(e, cmd);
    if !FokRejected(e, cmd) {
      MatchSound(e, cmd, StartMatching(e, cmd));
      SettleOk(e, cmd, Match(cmd, StartMatching(e, cmd)));
    }
  }

  lemma {:induction false} CancelOk(e: Engine, cmd: CancelOrder)
    requires WellFormed(e)
    ensures SpecCancel(e, cmd).fault == NoFault && WellFormed(SpecCancel(e, cmd).engine)
  {
    if cmd.orderId in e.index {
      var loc := e.index[cmd.orderId];
      assert Points(e.books, cmd.orderId, e.index[cmd.orderId]);
      RemovedOk(e, cmd.orderId);
    }
  }

  /** No command, whatever its ids, symbol or quantity, breaks the book or raises an exception. */
  lemma {:induction false} StepOk(e: Engine, command: Command)
    requires WellFormed(e)
    ensures Step(e, command).fault == NoFault
    ensures WellFormed(Step(e, command).engine)
  {
    match command
    case Add(c) => AddOk(e, c);
    case Cancel(c) => CancelOk(e, c);
    case Replace(c) =>
      CancelOk(e, CancelOrder(c.symbol, c.orderId));
      if c.orderId in e.index {
        var o := Located(e.books, e.index[c.orderId]);
        assert Points(e.books, c.orderId, e.index[c.orderId]);
        AddOk(SpecCancel(e, CancelOrder(c.symbol, c.orderId)).engine,
              Replacement(c, o.value.participant, e.index[c.orderId].side));
      }
  }

  lemma {:induction false} RunOk(e: Engine, commands: seq<Command>)
    requires WellFormed(e)
    ensures WellFormed(Run(e, commands))
    ensures forall i :: 0 <= i < |Replies(e, commands)| ==> Replies(e, commands)[i].fault == NoFault
    decreases |commands|
  {
    if commands != [] {
      StepOk(e, commands[0]);
      RunOk(Step(e, commands[0]).engine, commands[1..]);
    }
  }
}
