/** The order-id index against the book: a bijection as long as no command
    introduces an id that is still resting, and time order along each level. */
module IndexLaws {
  import opened Orders
  import opened EngineSpec
  import opened EngineInvariants
  import opened MatchingLaws

  // ---------------------------------------------------------------- the index as a bijection

  predicate SideIndexed(index: map<int, Location>, symbol: string, side: Side, orders: seq<RestingOrder>) {
    forall i :: 0 <= i < |orders| ==>
      && orders[i].orderId in index
      && index[orders[i].orderId] == Location(symbol, side, orders[i].price, orders[i].node)
  }

  predicate BookIndexed(index: map<int, Location>, symbol: string, b: Book) {
    SideIndexed(index, symbol, Buy, b.bids) && SideIndexed(index, symbol, Sell, b.asks)
  }

  /** Every resting order is the one its id leads to. */
  predicate Indexed(e: Engine) {
    forall s :: s in e.books ==> BookIndexed(e.index, s, e.books[s])
  }

  /** The command introduces no id that is still resting. */
  predicate Fresh(e: Engine, command: Command) {
    match command
    case Add(c) => c.orderId !in e.index
    case Cancel(_) => true
    case Replace(c) => c.newOrderId !in e.index || c.newOrderId == c.orderId
  }

  predicate FreshRun(e: Engine, commands: seq<Command>)
    decreases |commands|
  {
    commands == [] || (Fresh(e, commands[0]) && FreshRun(Step(e, commands[0]).engine, commands[1..]))
  }

  lemma {:induction false} BookForIndexed(e: Engine, symbol: string)
    requires Indexed(e)
    ensures BookIndexed(e.index, symbol, BookFor(e, symbol))
  {
  }

  /** With every order indexed, an id names one order in the whole engine. */
  lemma {:induction false} SameIdSameOrder(e: Engine, s: string, d: Side, i: nat, s1: string, d1: Side, i1: nat)
    requires WellFormed(e) && Indexed(e) && s in e.books && s1 in e.books
    requires i < |e.books[s].Of(d)| && i1 < |e.books[s1].Of(d1)|
    requires e.books[s].Of(d)[i].orderId == e.books[s1].Of(d1)[i1].orderId
    ensures s == s1 && d == d1 && i == i1
  {
    assert BookIndexed(e.index, s, e.books[s]) && BookIndexed(e.index, s1, e.books[s1]);
    assert BookOk(s, e.nextNode, e.books[s]);
    assert e.books[s].Of(d)[i].node == e.books[s1].Of(d1)[i1].node;
  }

  /** Shrinking one side to `kept`, a part of it that holds none of the ids taken
      out of the index. */
  lemma {:induction false} ShrinkIndexed(e: Engine, symbol: string, side: Side, kept: seq<RestingOrder>, gone: set<int>)
    requires WellFormed(e) && Indexed(e)
    requires SideIndexed(e.index - gone, symbol, side, kept)
    requires forall id :: id in gone && id in e.index ==>
               e.index[id].symbol == symbol && e.index[id].side == side
    ensures Indexed(SetSide(e, symbol, side, kept).(index := e.index - gone))
  {
    var e1 := SetSide(e, symbol, side, kept).(index := e.index - gone);
    forall s | s in e1.books
      ensures BookIndexed(e1.index, s, e1.books[s])
    {
      BookForIndexed(e, s);
    }
  }

  lemma {:induction false} MatchIndexed(e: Engine, cmd: AddOrder)
    requires WellFormed(e) && Indexed(e)
    ensures Indexed(During(e, cmd, Match(cmd, StartMatching(e, cmd))))
    ensures Match(cmd, StartMatching(e, cmd)).index.Keys <= e.index.Keys
  {
    hide WellFormed, Points, Match, TradesFor, Tradable, WalkEvents, Supply, Reachable, Own, LeftOver, Stops;
    var m, opp := StartMatching(e, cmd), Opposite(cmd.side);
    var orders := m.opposite;
    StartTradable(e, cmd);
    BookForIndexed(e, cmd.symbol);
    var k, cut, stopped := PriorityWalk(cmd, m);
    var kept, gone := Match(cmd, m).opposite, Ids(orders[..k]);
    forall i | 0 <= i < |kept|
      ensures kept[i].orderId in e.index - gone
      ensures e.index[kept[i].orderId] == Location(cmd.symbol, opp, kept[i].price, kept[i].node)
    {
      assert kept[i].orderId == orders[k + i].orderId;
      if kept[i].orderId in gone {
        var j :| 0 <= j < k && orders[j].orderId == orders[k + i].orderId;
        SameIdSameOrder(e, cmd.symbol, opp, j, cmd.symbol, opp, k + i);
      }
    }
    assert SideIndexed(e.index - gone, cmd.symbol, opp, kept);
    ShrinkIndexed(e, cmd.symbol, opp, kept, gone);
  }

  lemma {:induction false} RestIndexed(e: Engine, cmd: AddOrder, remaining: int)
    requires Indexed(e) && cmd.orderId !in e.index
    ensures Indexed(Rest(e, cmd, remaining))
  {
    hide Insert;
    var e1 := Rest(e, cmd, remaining);
    var orders := BookFor(e, cmd.symbol).Of(cmd.side);
    var o := RestingOrder(cmd.symbol, cmd.orderId, cmd.participant, cmd.side, cmd.price, remaining,
                          e.sequence, e.nextNode);
    var k := InsertAt(cmd.side, orders, o);
    forall s | s in e1.books
      ensures BookIndexed(e1.index, s, e1.books[s])
    {
      BookForIndexed(e, s);
    }
  }

  lemma {:induction false} AddIndexed(e: Engine, cmd: AddOrder)
    requires WellFormed(e) && Indexed(e) && cmd.orderId !in e.index
    ensures Indexed(SpecAdd(e, cmd).engine)
  {
    hide BookIndexed, WellFormed, Match, Rest, FokRejected;
    if FokRejected(e, cmd) {
      BookForIndexed(e, cmd.symbol);
      return;
    }
    MatchIndexed(e, cmd);
    var m := Match(cmd, StartMatching(e, cmd));
    var e1 := During(e, cmd, m).(sequence := e.sequence + |m.events|);
    assert Indexed(e1);
    var r := Settle(e, cmd, m).engine;
    if m.Active() && cmd.tif == Gtc {
      RestIndexed(e1, cmd, m.remaining);
      assert r == Rest(e1, cmd, m.remaining).(sequence := r.sequence);
    } else {
      assert r == e1.(sequence := r.sequence);
    }
  }

  lemma {:induction false} RemovedIndexed(e: Engine, id: int, k: nat)
    requires WellFormed(e) && Indexed(e) && id in e.index
    requires var loc := e.index[id];
             && loc.symbol in e.books && k < |e.books[loc.symbol].Of(loc.side)|
             && e.books[loc.symbol].Of(loc.side)[k].orderId == id
    ensures var loc := e.index[id];
            var orders := e.books[loc.symbol].Of(loc.side);
            SideIndexed(e.index - {id}, loc.symbol, loc.side, orders[..k] + orders[k + 1..])
  {
    hide WellFormed;
    var loc := e.index[id];
    var orders := e.books[loc.symbol].Of(loc.side);
    var kept := orders[..k] + orders[k + 1..];
    BookForIndexed(e, loc.symbol);
    forall i | 0 <= i < |kept|
      ensures kept[i].orderId != id && kept[i] in orders
    {
      var j := if i < k then i else i + 1;
      assert kept[i] == orders[j];
      if kept[i].orderId == id {
        SameIdSameOrder(e, loc.symbol, loc.side, k, loc.symbol, loc.side, j);
      }
    }
  }

  lemma {:induction false} CancelIndexed(e: Engine, cmd: CancelOrder)
    requires WellFormed(e) && Indexed(e)
    ensures Indexed(SpecCancel(e, cmd).engine)
  {
    hide WellFormed, Lookup, Remove, SideIndexed;
    if cmd.orderId in e.index {
      var loc := e.index[cmd.orderId];
      var k := Pointed(e, cmd.orderId);
      var orders := BookFor(e, loc.symbol).Of(loc.side);
      RemovedIndexed(e, cmd.orderId, k);
      ShrinkIndexed(e, loc.symbol, loc.side, orders[..k] + orders[k + 1..], {cmd.orderId});
    }
  }

  lemma {:induction false} StepIndexed(e: Engine, command: Command)
    requires WellFormed(e) && Indexed(e) && Fresh(e, command)
    ensures Indexed(Step(e, command).engine)
  {
    match command
    case Add(c) => AddIndexed(e, c);
    case Cancel(c) => CancelIndexed(e, c);
    case Replace(c) =>
      CancelIndexed(e, CancelOrder(c.symbol, c.orderId));
      CancelOk(e, CancelOrder(c.symbol, c.orderId));
      if c.orderId in e.index {
        assert Points(e.books, c.orderId, e.index[c.orderId]);
        var o := Located(e.books, e.index[c.orderId]);
        AddIndexed(SpecCancel(e, CancelOrder(c.symbol, c.orderId)).engine,
                   Replacement(c, o.value.participant, e.index[c.orderId].side));
      }
  }

  lemma {:induction false} RunIndexed(e: Engine, commands: seq<Command>)
    requires WellFormed(e) && Indexed(e) && FreshRun(e, commands)
    ensures WellFormed(Run(e, commands)) && Indexed(Run(e, commands))
    decreases |commands|
  {
    if commands != [] {
      StepOk(e, commands[0]);
      StepIndexed(e, commands[0]);
      RunIndexed(Step(e, commands[0]).engine, commands[1..]);
    }
  }

  predicate Resting(e: Engine, id: int, s: string, d: Side, i: nat) {
    s in e.books && i < |e.books[s].Of(d)| && e.books[s].Of(d)[i].orderId == id
  }

  lemma {:induction false} IndexHoldsResting(e: Engine, id: int)
    requires WellFormed(e) && Indexed(e)
    ensures id in e.index <==> exists s, d, i :: Resting(e, id, s, d, i)
  {
    forall s, d, i | Resting(e, id, s, d, i)
      ensures id in e.index
    {
      BookForIndexed(e, s);
    }
    if id in e.index {
      var loc := e.index[id];
      assert Points(e.books, id, loc);
      var k := LookupAt(BookFor(e, loc.symbol).Of(loc.side), loc.node);
      assert Resting(e, id, loc.symbol, loc.side, k);
    }
  }

  /** One order is gone from `before`, the rest keep their places. */
  ghost predicate LessOne(before: seq<RestingOrder>, after: seq<RestingOrder>, id: int) {
    exists k :: 0 <= k < |before| && before[k].orderId == id && after == before[..k] + before[k + 1..]
  }

  lemma {:induction false} CancelTakesOne(e: Engine, cmd: CancelOrder, s: string, d: Side)
    requires WellFormed(e)
    ensures var before, after := Listed(e, s, d), Listed(SpecCancel(e, cmd).engine, s, d);
            if cmd.orderId in e.index && e.index[cmd.orderId].symbol == s && e.index[cmd.orderId].side == d
            then LessOne(before, after, cmd.orderId) else after == before
  {
    if cmd.orderId in e.index {
      var loc := e.index[cmd.orderId];
      assert Points(e.books, cmd.orderId, loc);
      var k := LookupAt(BookFor(e, loc.symbol).Of(loc.side), loc.node);
    }
  }

  /** What a cancel answers: how much was left of the one order its index entry leads
      to, or that there is none. */
  lemma {:induction false} CancelAnswers(e: Engine, cmd: CancelOrder)
    requires WellFormed(e)
    ensures var r := SpecCancel(e, cmd);
            && r.fault == NoFault && r.trades == [] && r.engine.sequence == e.sequence + 1
            && r.engine.nextNode == e.nextNode && r.engine.books.Keys == e.books.Keys
            && r.engine.index == e.index - {cmd.orderId}
            && if cmd.orderId in e.index then
                 exists k :: var loc := e.index[cmd.orderId];
                             var before := Listed(e, loc.symbol, loc.side);
                             && 0 <= k < |before| && before[k].orderId == cmd.orderId && before[k].node == loc.node
                             && Listed(r.engine, loc.symbol, loc.side) == before[..k] + before[k + 1..]
                             && r.events == [Event(cmd.symbol, Cancelled(cmd.orderId, before[k].remaining, None))]
               else r.engine.books == e.books && r.events == [Event(cmd.symbol, Rejected(cmd.orderId, "UNKNOWN_ORDER"))]
  {
    hide WellFormed, Lookup, Remove;
    if cmd.orderId in e.index {
      var loc := e.index[cmd.orderId];
      var k := Pointed(e, cmd.orderId);
      var before := Listed(e, loc.symbol, loc.side);
      assert before == BookFor(e, loc.symbol).Of(loc.side);
      assert Listed(SpecCancel(e, cmd).engine, loc.symbol, loc.side) == before[..k] + before[k + 1..];
    } else {
      assert e.index - {cmd.orderId} == e.index;
    }
  }

  /** On a run that never reuses a resting id, the index holds exactly the resting
      ids, and a cancel takes out the named order and nothing else: every other
      order keeps its place in its list, and every other index entry stays. */
  lemma {:induction false} CancelIsExact(commands: seq<Command>, cmd: CancelOrder)
    requires FreshRun(EMPTY_ENGINE, commands)
    ensures var e := Run(EMPTY_ENGINE, commands);
            var r := SpecCancel(e, cmd).engine;
            && (cmd.orderId in e.index <==> exists s, d, i :: Resting(e, cmd.orderId, s, d, i))
            && (forall s, d, i :: !Resting(r, cmd.orderId, s, d, i))
            && r.index == e.index - {cmd.orderId}
            && forall s, d ::
                 var before, after := Listed(e, s, d), Listed(r, s, d);
                 if cmd.orderId in e.index && e.index[cmd.orderId].symbol == s && e.index[cmd.orderId].side == d
                 then LessOne(before, after, cmd.orderId) else after == before
  {
    hide WellFormed, Indexed, Resting, LessOne, FreshRun;
    var e := Run(EMPTY_ENGINE, commands);
    RunIndexed(EMPTY_ENGINE, commands);
    IndexHoldsResting(e, cmd.orderId);
    CancelOk(e, cmd);
    CancelIndexed(e, cmd);
    IndexHoldsResting(SpecCancel(e, cmd).engine, cmd.orderId);
    forall s, d {
      CancelTakesOne(e, cmd, s, d);
    }
  }

  // ---------------------------------------------------------------- time order

  /** Along a level the recorded entry numbers strictly increase, and all are past. */
  predicate SideAged(now: int, orders: seq<RestingOrder>) {
    && (forall i :: 0 <= i < |orders| ==> orders[i].entered < now)
    && (forall i, j :: 0 <= i < j < |orders| && orders[i].price == orders[j].price ==>
          orders[i].entered < orders[j].entered)
  }

  predicate BooksAged(books: map<string, Book>, now: int) {
    forall s :: s in books ==> SideAged(now, books[s].bids) && SideAged(now, books[s].asks)
  }

  predicate Aged(e: Engine) {
    BooksAged(e.books, e.sequence)
  }

  lemma {:induction false} SetSideAged(e: Engine, symbol: string, side: Side, orders: seq<RestingOrder>, now: int)
    requires Aged(e) && SideAged(now, orders) && e.sequence <= now
    ensures BooksAged(SetSide(e, symbol, side, orders).books, now)
  {
    var books := SetSide(e, symbol, side, orders).books;
    forall s | s in books
      ensures SideAged(now, books[s].bids) && SideAged(now, books[s].asks)
    {
      assert SideAged(e.sequence, BookFor(e, s).bids) && SideAged(e.sequence, BookFor(e, s).asks);
    }
  }

  lemma {:induction false} AfterAged(now: int, orders: seq<RestingOrder>, k: nat, cut: int)
    requires SideAged(now, orders) && k <= |orders| && (cut > 0 ==> k < |orders|)
    ensures SideAged(now, After(orders, k, cut))
  {
    var rest := After(orders, k, cut);
    assert forall i :: 0 <= i < |rest| ==>
      rest[i].entered == orders[k + i].entered && rest[i].price == orders[k + i].price;
  }

  lemma {:induction false} MatchAged(e: Engine, cmd: AddOrder)
    requires WellFormed(e) && Aged(e)
    ensures SideAged(e.sequence, Match(cmd, StartMatching(e, cmd)).opposite)
  {
    hide Match, WellFormed, SideAged, After, TradesFor, Tradable;
    var m := StartMatching(e, cmd);
    StartTradable(e, cmd);
    var k, cut, stopped := PriorityWalk(cmd, m);
    BookForAged(e, cmd.symbol, Opposite(cmd.side));
    AfterAged(e.sequence, m.opposite, k, cut);
  }

  lemma {:induction false} BookForAged(e: Engine, symbol: string, side: Side)
    requires Aged(e)
    ensures SideAged(e.sequence, BookFor(e, symbol).Of(side))
  {
  }

  lemma {:induction false} RestAged(e: Engine, cmd: AddOrder, remaining: int)
    requires WellFormed(e) && Aged(e)
    ensures Aged(Rest(e, cmd, remaining).(sequence := e.sequence + 1))
  {
    var own := BookFor(e, cmd.symbol).Of(cmd.side);
    var o := RestingOrder(cmd.symbol, cmd.orderId, cmd.participant, cmd.side, cmd.price, remaining, e.sequence, e.nextNode);
    BookForOk(e, cmd.symbol);
    assert SideAged(e.sequence, own);
    InsertAged(cmd.symbol, cmd.side, e.nextNode, own, o);
    SetSideAged(e, cmd.symbol, cmd.side, Insert(cmd.side, own, o), e.sequence + 1);
  }

  lemma {:induction false} SideLater(now: int, later: int, orders: seq<RestingOrder>)
    requires SideAged(now, orders) && now <= later
    ensures SideAged(later, orders)
  {
  }

  lemma {:induction false} SettleAged(e: Engine, cmd: AddOrder, m: Matching)
    requires Aged(e) && Sound(e, cmd, m) && SideAged(e.sequence, m.opposite)
    ensures Aged(Settle(e, cmd, m).engine)
  {
    hide SideAged, BooksAged, WellFormed, Rest;
    var e1 := During(e, cmd, m).(sequence := e.sequence + |m.events|);
    Renumbered(During(e, cmd, m), e1);
    SideLater(e.sequence, e1.sequence, m.opposite);
    SetSideAged(e, cmd.symbol, Opposite(cmd.side), m.opposite, e1.sequence);
    if m.Active() && cmd.tif == Gtc {
      RestAged(e1, cmd, m.remaining);
    } else {
      LaterAged(e1, Settle(e, cmd, m).engine);
    }
  }

  lemma {:induction false} LaterAged(e: Engine, e1: Engine)
    requires Aged(e) && e1.books == e.books && e.sequence <= e1.sequence
    ensures Aged(e1)
  {
    assert forall s :: s in e.books ==> SideAged(e.sequence, e.books[s].bids) && SideAged(e.sequence, e.books[s].asks);
  }

  lemma {:induction false} AddAged(e: Engine, cmd: AddOrder)
    requires WellFormed(e) && Aged(e)
    ensures Aged(SpecAdd(e, cmd).engine)
  {
    if FokRejected(e, cmd) {
      SetSideAged(e, cmd.symbol, Buy, BookFor(e, cmd.symbol).bids, e.sequence + 1);
    } else {
      StartOk(e, cmd);
      MatchSound(e, cmd, StartMatching(e, cmd));
      MatchAged(e, cmd);
      SettleAged(e, cmd, Match(cmd, StartMatching(e, cmd)));
    }
  }

  lemma {:induction false} InsertAged(symbol: string, side: Side, limit: nat, orders: seq<RestingOrder>, o: RestingOrder)
    requires SideOk(symbol, side, limit, orders) && SideAged(o.entered, orders)
    ensures SideAged(o.entered + 1, Insert(side, orders, o))
  {
    hide Insert, OrderOk;
    var k := InsertAt(side, orders, o);
    forall j | k < j < |orders|
      ensures orders[j].price != o.price
    {
      assert Ahead(side, orders[k], orders[j]);
    }
  }

  lemma {:induction false} RemoveAged(now: int, orders: seq<RestingOrder>, node: nat)
    requires SideAged(now, orders) && Lookup(orders, node).Some?
    ensures SideAged(now, Remove(orders, node))
  {
    hide Remove, Lookup;
    var k := LookupAt(orders, node);
    var kept := orders[..k] + orders[k + 1..];
    assert forall i :: 0 <= i < |kept| ==> kept[i] == orders[if i < k then i else i + 1];
  }

  lemma {:induction false} CancelAged(e: Engine, cmd: CancelOrder)
    requires WellFormed(e) && Aged(e)
    ensures Aged(SpecCancel(e, cmd).engine)
  {
    hide SideAged, WellFormed, Lookup, Remove;
    if cmd.orderId in e.index {
      var loc := e.index[cmd.orderId];
      var k := Pointed(e, cmd.orderId);
      var orders := BookFor(e, loc.symbol).Of(loc.side);
      RemoveAged(e.sequence, orders, loc.node);
      SideLater(e.sequence, e.sequence + 1, Remove(orders, loc.node));
      SetSideAged(e, loc.symbol, loc.side, Remove(orders, loc.node), e.sequence + 1);
    } else {
      LaterAged(e, SpecCancel(e, cmd).engine);
    }
  }

  lemma {:induction false} StepAged(e: Engine, command: Command)
    requires WellFormed(e) && Aged(e)
    ensures Aged(Step(e, command).engine)
  {
    match command
    case Add(c) => AddAged(e, c);
    case Cancel(c) => CancelAged(e, c);
    case Replace(c) =>
      CancelAged(e, CancelOrder(c.symbol, c.orderId));
      CancelOk(e, CancelOrder(c.symbol, c.orderId));
      if c.orderId in e.index {
        assert Points(e.books, c.orderId, e.index[c.orderId]);
        var o := Located(e.books, e.index[c.orderId]);
        AddAged(SpecCancel(e, CancelOrder(c.symbol, c.orderId)).engine,
                Replacement(c, o.value.participant, e.index[c.orderId].side));
      }
  }

  /** On every run from an empty engine, even one that reuses ids, time priority
      is visible in the recorded entry numbers. */
  lemma {:induction false} RunAged(e: Engine, commands: seq<Command>)
    requires WellFormed(e) && Aged(e)
    ensures WellFormed(Run(e, commands)) && Aged(Run(e, commands))
    decreases |commands|
  {
    if commands != [] {
      StepOk(e, commands[0]);
      StepAged(e, commands[0]);
      RunAged(Step(e, commands[0]).engine, commands[1..]);
    }
  }

  /** A book as a trader expects it: positive quantities under the right symbol and
      side, better prices first, earlier orders first at the same price, and the best
      bid below the best ask. */
  predicate Tidy(symbol: string, b: Book) {
    && (forall i :: 0 <= i < |b.bids| ==> b.bids[i].symbol == symbol && b.bids[i].side == Buy && b.bids[i].remaining > 0)
    && (forall i :: 0 <= i < |b.asks| ==> b.asks[i].symbol == symbol && b.asks[i].side == Sell && b.asks[i].remaining > 0)
    && (forall i, j :: 0 <= i < j < |b.bids| ==>
          || b.bids[i].price > b.bids[j].price
          || (b.bids[i].price == b.bids[j].price && b.bids[i].entered < b.bids[j].entered))
    && (forall i, j :: 0 <= i < j < |b.asks| ==>
          || b.asks[i].price < b.asks[j].price
          || (b.asks[i].price == b.asks[j].price && b.asks[i].entered < b.asks[j].entered))
    && (b.bids != [] && b.asks != [] ==> b.bids[0].price < b.asks[0].price)
  }

  lemma {:induction false} OkIsTidy(symbol: string, limit: nat, b: Book, now: int)
    requires BookOk(symbol, limit, b) && SideAged(now, b.bids) && SideAged(now, b.asks)
    ensures Tidy(symbol, b)
  {
    forall i, j | 0 <= i < j < |b.bids|
      ensures b.bids[i].price > b.bids[j].price
              || (b.bids[i].price == b.bids[j].price && b.bids[i].entered < b.bids[j].entered)
    {
      assert Ahead(Buy, b.bids[i], b.bids[j]);
    }
    forall i, j | 0 <= i < j < |b.asks|
      ensures b.asks[i].price < b.asks[j].price
              || (b.asks[i].price == b.asks[j].price && b.asks[i].entered < b.asks[j].entered)
    {
      assert Ahead(Sell, b.asks[i], b.asks[j]);
    }
    assert forall i :: 0 <= i < |b.bids| ==> OrderOk(symbol, Buy, limit, b.bids[i]);
    assert forall i :: 0 <= i < |b.asks| ==> OrderOk(symbol, Sell, limit, b.asks[i]);
  }

  /** Every book of every run is tidy, whatever the commands. */
  lemma {:induction false} RunTidy(commands: seq<Command>)
    ensures var books := Run(EMPTY_ENGINE, commands).books; forall s :: s in books ==> Tidy(s, books[s])
  {
    hide Tidy, BookOk, SideAged, IndexOk, Run;
    RunAged(EMPTY_ENGINE, commands);
    var e := Run(EMPTY_ENGINE, commands);
    forall s | s in e.books
      ensures Tidy(s, e.books[s])
    {
      OkIsTidy(s, e.nextNode, e.books[s], e.sequence);
    }
  }
}
