/** The matching engine as the program runs it: mutable books of price levels, an
    index, an event counter, and nested loops over levels and orders.  Every
    method is proved to do what the flat specification says. */
module MatchingEngineImpl {
  import opened Orders
  import opened EngineSpec
  import opened EngineInvariants
  import opened MatchingLaws
  import opened Levels
  import opened JsonValue
  import opened Snapshot

  lemma {:induction false} StampLog(sequence: int, events: seq<Event>, ev: Event)
    ensures Stamp(sequence, events + [ev]) == Stamp(sequence, events) + [ExecEvent(sequence + |events| + 1, ev)]
  {
  }

  lemma {:induction false} StampConcat(sequence: int, a: seq<Event>, b: seq<Event>)
    ensures Stamp(sequence, a + b) == Stamp(sequence, a) + Stamp(sequence + |a|, b)
  {
  }

  /** The loop variables of `Add` agree with the matching state `m` of the specification. */
  ghost predicate Tracks(m: Matching, start: int, remaining: int, index: map<int, Location>, sequence: int,
                         events: seq<ExecEvent>, trades: seq<Trade>)
  {
    && m.fault == NoFault && m.remaining == remaining && m.index == index && m.trades == trades
    && events == Stamp(start, m.events) && sequence == start + |m.events|
  }

  predicate AtPrice(orders: seq<RestingOrder>, price: int) {
    forall i :: 0 <= i < |orders| ==> orders[i].price == price
  }

  /** What a fill does to each loop variable; neither of the engine's overfill and
      non-positive-fill exceptions is raised. */
  lemma {:induction false} FillTracks(cmd: AddOrder, m: Matching)
    requires m.Active() && m.opposite != [] && Tradable(cmd, m.opposite)
    ensures var passive, r := m.opposite[0], Fill(cmd, m);
            var fill := Min(m.remaining, passive.remaining);
            && fill > 0 && r.fault == NoFault
            && r.remaining == m.remaining - fill
            && r.trades == m.trades + [BuildTrade(cmd, passive, fill)]
            && r.events == m.events + [Event(cmd.symbol, Executed(cmd.orderId, passive.orderId, passive.price, fill))]
            && (fill == passive.remaining ==> r.opposite == m.opposite[1..] && r.index == m.index - {passive.orderId})
            && (fill < passive.remaining ==>
                  && r.opposite == [passive.(remaining := passive.remaining - fill)] + m.opposite[1..]
                  && r.index == m.index)
  {
    FillCases(cmd, m);
  }

  lemma {:induction false} StepTradable(cmd: AddOrder, m: Matching)
    requires !Done(cmd, m) && Tradable(cmd, m.opposite)
    ensures Tradable(cmd, MatchStep(cmd, m).opposite) && MatchStep(cmd, m).fault == NoFault
    ensures |MatchStep(cmd, m).opposite| < |m.opposite| || MatchStep(cmd, m).remaining == 0
  {
    MatchStepCases(cmd, m);
  }

  /** The best level, shortened but not emptied. */
  lemma {:induction false} ReplaceBest(side: Side, levels: seq<Level>, orders: seq<RestingOrder>)
    requires LevelsOk(levels) && levels != [] && orders != []
    requires AtPrice(orders, levels[BestIndex(side, levels)].price)
    ensures var i := BestIndex(side, levels);
            var r := levels[i := Level(levels[i].price, orders)];
            LevelsOk(r) && Flatten(side, r) == orders + Flatten(side, EraseAt(levels, i))
  {
    var i := BestIndex(side, levels);
    var r := levels[i := Level(levels[i].price, orders)];
    assert EraseAt(r, i) == EraseAt(levels, i);
    assert LevelOk(r[i]);
    assert forall j :: 0 <= j < |r| ==> r[j].price == levels[j].price;
  }

  /** Naming a symbol opens an empty book for it. */
  lemma {:induction false} OpenLevels(books: map<string, LevelBook>, symbol: string)
    ensures FlattenBooks(books[symbol := LevelsFor(books, symbol)]) ==
            FlattenBooks(books)[symbol := BookIn(FlattenBooks(books), symbol)]
    ensures BooksLevelled(books) ==> BooksLevelled(books[symbol := LevelsFor(books, symbol)])
  {
    LevelsForIs(books, symbol);
  }

  /** Replace is a cancel followed by an add. */
  lemma {:induction false} ReplaceIs(e: Engine, cmd: ReplaceOrder, order: RestingOrder)
    requires cmd.orderId in e.index && Located(e.books, e.index[cmd.orderId]) == Some(order)
    ensures var first := SpecCancel(e, CancelOrder(cmd.symbol, cmd.orderId));
            var second := SpecAdd(first.engine, Replacement(cmd, order.participant, e.index[cmd.orderId].side));
            && SpecReplace(e, cmd) == second.(events := first.events + second.events)
            && Stamp(e.sequence, first.events + second.events) ==
               Stamp(e.sequence, first.events) + Stamp(first.engine.sequence, second.events)
  {
    var first := SpecCancel(e, CancelOrder(cmd.symbol, cmd.orderId));
    var second := SpecAdd(first.engine, Replacement(cmd, order.participant, e.index[cmd.orderId].side));
    StampConcat(e.sequence, first.events, second.events);
  }

  class MatchingEngine {
    var books: map<string, LevelBook>
    var index: map<int, Location>
    var sequence: int
    var nextNode: nat

    ghost function Abs(): Engine
      reads this
    {
      Engine(FlattenBooks(books), index, sequence, nextNode)
    }

    ghost predicate Levelled()
      reads this
    {
      BooksLevelled(books)
    }

    ghost predicate Valid()
      reads this
    {
      Levelled() && WellFormed(Abs())
    }

    constructor ()
      ensures Valid() && Abs() == EMPTY_ENGINE
    {
      books, index, sequence, nextNode := map[], map[], 0, 0;
    }

    method Emit(symbol: string, payload: Payload) returns (ev: ExecEvent)
      modifies this`sequence
      ensures sequence == old(sequence) + 1
      ensures ev == ExecEvent(sequence, Event(symbol, payload))
    {
      sequence := sequence + 1;
      ev := ExecEvent(sequence, Event(symbol, payload));
    }

    /** Position of a price in the ordered map. */
    static method LowerBound(levels: seq<Level>, price: int) returns (i: nat)
      requires LevelsOk(levels)
      ensures BoundAt(levels, price, i)
    {
      i := 0;
      while i < |levels| && levels[i].price < price
        invariant i <= |levels|
        invariant forall j :: 0 <= j < i ==> levels[j].price < price
      {
        i := i + 1;
      }
    }

    static method LevelTotal(orders: seq<RestingOrder>) returns (total: int)
      ensures total == Volume(orders)
    {
      total := 0;
      var i := 0;
      while i < |orders|
        invariant i <= |orders| && total == Volume(orders[..i])
      {
        VolumeSplit(orders, i);
        total := total + orders[i].remaining;
        i := i + 1;
      }
      assert orders[..i] == orders;
    }

    static method AvailableVolume(side: Side, levels: seq<Level>, limit: int) returns (total: int)
      requires LevelsOk(levels)
      ensures total == EngineSpec.AvailableVolume(side, Flatten(side, levels), limit)
    {
      hide LevelsOk, Volume;
      total := 0;
      var left := levels;
      while left != []
        invariant LevelsOk(left)
        invariant total + EngineSpec.AvailableVolume(side, Flatten(side, left), limit)
               == EngineSpec.AvailableVolume(side, Flatten(side, levels), limit)
        decreases |left|
      {
        var i := BestIndex(side, left);
        AvailableBest(side, left, limit);
        if Better(side, limit, left[i].price) {
          break;
        }
        var volume := LevelTotal(left[i].orders);
        total := total + volume;
        EraseOk(left, i);
        left := EraseAt(left, i);
      }
    }

    method RestOrder(cmd: AddOrder, remaining: int)
      requires Levelled()
      modifies this`books, this`index, this`nextNode
      ensures Levelled()
      ensures Abs() == Rest(old(Abs()), cmd, remaining)
    {
      LevelsForIs(books, cmd.symbol);
      var levels := LevelsFor(books, cmd.symbol).Of(cmd.side);
      var i := LowerBound(levels, cmd.price);
      var o := RestingOrder(cmd.symbol, cmd.orderId, cmd.participant, cmd.side, cmd.price, remaining, sequence, nextNode);
      PutRests(books, Abs(), cmd, i, o);
      books := SetLevels(books, cmd.symbol, cmd.side, Put(levels, i, o));
      index := index[cmd.orderId := Location(cmd.symbol, cmd.side, cmd.price, nextNode)];
      nextNode := nextNode + 1;
    }

    /** Erases the list node an index entry names; returns the order it held. */
    method RemoveResting(orderId: int) returns (order: RestingOrder)
      requires Valid() && orderId in index
      modifies this`books, this`index
      ensures Levelled()
      ensures Located(old(Abs().books), old(index[orderId])) == Some(order)
      ensures Abs() == Removed(old(Abs()), orderId)
    {
      hide WellFormed, Take, Flatten, FlattenBooks, BoundAt, Lookup, Remove, LevelsOk;
      var loc := index[orderId];
      LevelsForIs(books, loc.symbol);
      var levels := LevelsFor(books, loc.symbol).Of(loc.side);
      var i := LowerBound(levels, loc.price);
      TakeRemoves(books, Abs(), orderId, i);
      order := Lookup(levels[i].orders, loc.node).value;
      books := SetLevels(books, loc.symbol, loc.side, Take(levels, i, loc.node));
      index := index - {orderId};
    }

    method Cancel(cmd: CancelOrder) returns (events: seq<ExecEvent>)
      requires Valid()
      modifies this
      ensures Valid()
      ensures var r := SpecCancel(old(Abs()), cmd);
              Abs() == r.engine && events == Stamp(old(sequence), r.events) && r.fault == NoFault
    {
      CancelOk(Abs(), cmd);
      var ev: ExecEvent;
      if cmd.orderId !in index {
        ev := Emit(cmd.symbol, Rejected(cmd.orderId, "UNKNOWN_ORDER"));
      } else {
        var order := RemoveResting(cmd.orderId);
        ev := Emit(cmd.symbol, Cancelled(cmd.orderId, order.remaining, None));
      }
      events := [ev];
    }

    /** The head of the level belongs to the sender: drop it, the sender, or both. */
    method PreventSelfTrade(cmd: AddOrder, level0: seq<RestingOrder>, remaining0: int, events0: seq<ExecEvent>,
                            ghost m: Matching, ghost rest: seq<RestingOrder>, ghost start: int)
        returns (level: seq<RestingOrder>, remaining: int, events: seq<ExecEvent>)
      requires Tracks(m, start, remaining0, index, sequence, events0, m.trades)
      requires level0 != [] && m.opposite == level0 + rest
      modifies this`index, this`sequence
      ensures level == if DropsPassive(cmd) then level0[1..] else level0
      ensures var r := EngineSpec.PreventSelfTrade(cmd, m);
              Tracks(r, start, remaining, index, sequence, events, m.trades) && r.opposite == level + rest
    {
      level, remaining, events := level0, remaining0, events0;
      ghost var log := m.events;
      var passive := level[0];
      assert m.opposite[0] == passive && m.opposite[1..] == level[1..] + rest;
      if DropsPassive(cmd) {
        var ev := Emit(cmd.symbol, Cancelled(passive.orderId, passive.remaining, Some(STP_REASON)));
        StampLog(start, log, ev.event);
        log := log + [ev.event];
        events := events + [ev];
        index := index - {passive.orderId};
        level := level[1..];
      }
      if DropsAggressor(cmd) {
        var ev := Emit(cmd.symbol, Cancelled(cmd.orderId, remaining, Some(STP_REASON)));
        StampLog(start, log, ev.event);
        events := events + [ev];
        remaining := 0;
      }
    }

    /** Trade with the head of the level. */
    method FillHead(cmd: AddOrder, level0: seq<RestingOrder>, remaining0: int, events0: seq<ExecEvent>, trades0: seq<Trade>,
                    ghost m: Matching, ghost rest: seq<RestingOrder>, ghost start: int)
        returns (level: seq<RestingOrder>, remaining: int, events: seq<ExecEvent>, trades: seq<Trade>)
      requires Tracks(m, start, remaining0, index, sequence, events0, trades0)
      requires level0 != [] && m.opposite == level0 + rest && Tradable(cmd, m.opposite) && remaining0 > 0
      modifies this`index, this`sequence
      ensures level == level0[1..] || (|level| == |level0| && level[1..] == level0[1..] && level[0].price == level0[0].price)
      ensures var r := Fill(cmd, m);
              Tracks(r, start, remaining, index, sequence, events, trades) && r.opposite == level + rest
    {
      var passive := level0[0];
      FillTracks(cmd, m);
      assert m.opposite[0] == passive && m.opposite[1..] == level0[1..] + rest;
      var fill := if remaining0 < passive.remaining then remaining0 else passive.remaining;
      assert fill > 0;
      remaining := remaining0 - fill;
      var left := passive.remaining - fill;
      assert left >= 0 && passive.symbol == cmd.symbol;
      trades := trades0 + [BuildTrade(cmd, passive, fill)];
      var ev := Emit(cmd.symbol, Executed(cmd.orderId, passive.orderId, passive.price, fill));
      StampLog(start, m.events, ev.event);
      events := events0 + [ev];
      level := [passive.(remaining := left)] + level0[1..];
      assert level + rest == [passive.(remaining := left)] + (level0[1..] + rest);
      if left == 0 {
        index := index - {passive.orderId};
        level := level0[1..];
      }
    }

    /** One price level: the inner loop of `Add`.  `m` follows along in the flat
        specification, where `rest` is everything behind this level. */
    method MatchLevel(cmd: AddOrder, level0: seq<RestingOrder>, remaining0: int, events0: seq<ExecEvent>, trades0: seq<Trade>,
                      ghost m0: Matching, ghost rest: seq<RestingOrder>, ghost price: int, ghost start: int)
        returns (level: seq<RestingOrder>, remaining: int, events: seq<ExecEvent>, trades: seq<Trade>, ghost m: Matching)
      requires Tracks(m0, start, remaining0, index, sequence, events0, trades0)
      requires m0.opposite == level0 + rest && Tradable(cmd, m0.opposite)
      requires Marketable(cmd, price) && AtPrice(level0, price)
      modifies this`index, this`sequence
      ensures Tracks(m, start, remaining, index, sequence, events, trades)
      ensures m.opposite == level + rest && Tradable(cmd, m.opposite)
      ensures AtPrice(level, price)
      ensures Match(cmd, m) == Match(cmd, m0)
      ensures remaining <= 0 || level == []
    {
      level, remaining, events, trades, m := level0, remaining0, events0, trades0, m0;
      while remaining > 0 && level != []
        invariant Tracks(m, start, remaining, index, sequence, events, trades)
        invariant m.opposite == level + rest && Tradable(cmd, m.opposite)
        invariant AtPrice(level, price)
        invariant Match(cmd, m) == Match(cmd, m0)
        decreases |level| + if remaining > 0 then 1 else 0
      {
        assert m.opposite[0] == level[0];
        StepTradable(cmd, m);
        if SelfMatch(cmd, level[0]) {
          level, remaining, events := PreventSelfTrade(cmd, level, remaining, events, m, rest, start);
        } else {
          level, remaining, events, trades := FillHead(cmd, level, remaining, events, trades, m, rest, start);
        }
        m := MatchStep(cmd, m);
      }
    }

    /** The outer loop of `Add`: level after level, best price first. */
    method MatchBook(cmd: AddOrder, levels0: seq<Level>, events0: seq<ExecEvent>, ghost m0: Matching, ghost start: int)
        returns (levels: seq<Level>, remaining: int, events: seq<ExecEvent>, trades: seq<Trade>)
      requires Tracks(m0, start, cmd.quantity, index, sequence, events0, [])
      requires LevelsOk(levels0) && m0.opposite == Flatten(Opposite(cmd.side), levels0) && Tradable(cmd, m0.opposite)
      modifies this`index, this`sequence
      ensures Tracks(Match(cmd, m0), start, remaining, index, sequence, events, trades)
      ensures LevelsOk(levels) && Match(cmd, m0).opposite == Flatten(Opposite(cmd.side), levels)
    {
      levels, remaining, events, trades := levels0, cmd.quantity, events0, [];
      var opp := Opposite(cmd.side);
      ghost var m := m0;
      while remaining > 0 && levels != []
        invariant Tracks(m, start, remaining, index, sequence, events, trades)
        invariant LevelsOk(levels) && m.opposite == Flatten(opp, levels) && Tradable(cmd, m.opposite)
        invariant Match(cmd, m) == Match(cmd, m0)
        decreases |levels| + if remaining > 0 then 1 else 0
      {
        var i := BestIndex(opp, levels);
        var best := levels[i];
        assert LevelOk(best);
        if cmd.tif != Market && Better(opp, cmd.price, best.price) {
          assert m.opposite[0] == best.orders[0];
          break;
        }
        var rest := EraseAt(levels, i);
        EraseOk(levels, i);
        var level: seq<RestingOrder>;
        level, remaining, events, trades, m :=
          MatchLevel(cmd, best.orders, remaining, events, trades, m, Flatten(opp, rest), best.price, start);
        if level == [] {
          levels := rest;
        } else {
          ReplaceBest(opp, levels, level);
          levels := levels[i := Level(best.price, level)];
        }
      }
    }

    /** The end of `Add`: rest, cancel or drop what did not match. */
    method SettleRemainder(cmd: AddOrder, remaining: int, events0: seq<ExecEvent>, ghost e: Engine, ghost m: Matching)
        returns (events: seq<ExecEvent>)
      requires Levelled() && Abs() == During(e, cmd, m).(sequence := e.sequence + |m.events|)
      requires m.fault == NoFault && m.remaining == remaining && events0 == Stamp(e.sequence, m.events)
      modifies this
      ensures Levelled()
      ensures Abs() == Settle(e, cmd, m).engine && events == Stamp(e.sequence, Settle(e, cmd, m).events)
    {
      hide Rest, FlattenBooks, BooksLevelled, During;
      events := events0;
      if remaining > 0 {
        if cmd.tif == Gtc {
          RestOrder(cmd, remaining);
          var ev := Emit(cmd.symbol, Rested(cmd.orderId, remaining));
          StampLog(e.sequence, m.events, ev.event);
          events := events + [ev];
        } else if cmd.tif == Ioc || cmd.tif == Market {
          var ev := Emit(cmd.symbol, Cancelled(cmd.orderId, remaining, None));
          StampLog(e.sequence, m.events, ev.event);
          events := events + [ev];
        }
      }
    }

    /** The fill-or-kill pre-check. */
    method FokUnfillable(cmd: AddOrder) returns (unfillable: bool)
      requires Levelled()
      ensures unfillable == FokRejected(Abs(), cmd)
    {
      unfillable := false;
      if cmd.tif == Fok {
        LevelsForIs(books, cmd.symbol);
        var opp := Opposite(cmd.side);
        var volume := AvailableVolume(opp, LevelsFor(books, cmd.symbol).Of(opp), cmd.price);
        unfillable := volume < cmd.quantity;
      }
    }

    /** The part of `Add` after the pre-check. */
    method Accept(cmd: AddOrder) returns (events: seq<ExecEvent>, trades: seq<Trade>)
      requires Levelled() && Tradable(cmd, StartMatching(Abs(), cmd).opposite)
      modifies this
      ensures Levelled()
      ensures var r := Settle(old(Abs()), cmd, Match(cmd, StartMatching(old(Abs()), cmd)));
              Abs() == r.engine && events == Stamp(old(sequence), r.events) && trades == r.trades
    {
      hide Match, Flatten, LevelsOk;
      ghost var e := Abs();
      var opp := Opposite(cmd.side);
      LevelsForIs(books, cmd.symbol);
      ghost var m := StartMatching(e, cmd);
      var accepted := Emit(cmd.symbol, Accepted(cmd.orderId, cmd.quantity));
      var levels, remaining;
      levels, remaining, events, trades :=
        MatchBook(cmd, LevelsFor(books, cmd.symbol).Of(opp), [accepted], m, e.sequence);
      SetLevelsIs(books, cmd.symbol, opp, levels);
      books := SetLevels(books, cmd.symbol, opp, levels);
      events := SettleRemainder(cmd, remaining, events, e, Match(cmd, m));
    }

    method Add(cmd: AddOrder) returns (events: seq<ExecEvent>, trades: seq<Trade>)
      requires Valid()
      modifies this
      ensures Valid()
      ensures var r := SpecAdd(old(Abs()), cmd);
              && Abs() == r.engine && events == Stamp(old(sequence), r.events) && trades == r.trades
              && r.fault == NoFault
    {
      hide WellFormed, BooksLevelled, FlattenBooks, Match, Settle, StartMatching, Tradable;
      ghost var e := Abs();
      var unfillable := FokUnfillable(cmd);
      if unfillable {
        OpenLevels(books, cmd.symbol);
        books := books[cmd.symbol := LevelsFor(books, cmd.symbol)];
        var ev := Emit(cmd.symbol, Rejected(cmd.orderId, "FOK_UNFILLABLE"));
        events, trades := [ev], [];
      } else {
        StartTradable(e, cmd);
        events, trades := Accept(cmd);
      }
      AddOk(e, cmd);
    }

    method Replace(cmd: ReplaceOrder) returns (events: seq<ExecEvent>, trades: seq<Trade>)
      requires Valid()
      modifies this
      ensures Valid()
      ensures var r := SpecReplace(old(Abs()), cmd);
              && Abs() == r.engine && events == Stamp(old(sequence), r.events) && trades == r.trades
              && r.fault == NoFault
    {
      ghost var e := Abs();
      if cmd.orderId !in index {
        var ev := Emit(cmd.symbol, Rejected(cmd.orderId, "UNKNOWN_ORDER"));
        return [ev], [];
      }
      var side := index[cmd.orderId].side;
      var order := PeekResting(cmd.orderId);
      var first := Cancel(CancelOrder(cmd.symbol, cmd.orderId));
      var second: seq<ExecEvent>;
      second, trades := Add(Replacement(cmd, order.participant, side));
      events := first + second;
      ReplaceIs(e, cmd, order);
    }

    /** Dereferences the list iterator of an index entry. */
    method PeekResting(orderId: int) returns (order: RestingOrder)
      requires Valid() && orderId in index
      ensures Located(Abs().books, index[orderId]) == Some(order)
    {
      hide WellFormed, Take, Flatten, FlattenBooks, BoundAt, Lookup, Remove, LevelsOk;
      var loc := index[orderId];
      LevelsForIs(books, loc.symbol);
      var levels := LevelsFor(books, loc.symbol).Of(loc.side);
      var i := LowerBound(levels, loc.price);
      TakeRemoves(books, Abs(), orderId, i);
      order := Lookup(levels[i].orders, loc.node).value;
    }

    method Reject(symbol: string, orderId: int, reason: string) returns (ev: ExecEvent)
      requires Valid()
      modifies this`sequence
      ensures Valid() && Abs() == old(Abs()).(sequence := old(sequence) + 1)
      ensures [ev] == Stamp(old(sequence), [Event(symbol, Rejected(orderId, reason))])
    {
      ev := Emit(symbol, Rejected(orderId, reason));
    }

    method BestBid(symbol: string) returns (found: bool, price: int)
      requires Valid()
      ensures var bids := BookFor(Abs(), symbol).bids;
              found == (bids != []) && (found ==> price == bids[0].price)
    {
      var levels := LevelsFor(books, symbol).bids;
      LevelsForIs(books, symbol);
      if levels == [] {
        return false, 0;
      }
      assert LevelOk(levels[|levels| - 1]);
      return true, levels[|levels| - 1].price;
    }

    method BestAsk(symbol: string) returns (found: bool, price: int)
      requires Valid()
      ensures var asks := BookFor(Abs(), symbol).asks;
              found == (asks != []) && (found ==> price == asks[0].price)
    {
      var levels := LevelsFor(books, symbol).asks;
      LevelsForIs(books, symbol);
      if levels == [] {
        return false, 0;
      }
      assert LevelOk(levels[0]);
      return true, levels[0].price;
    }

    // -------------------------------------------------------------- snapshots

    static method SerializeOrders(orders: seq<RestingOrder>) returns (js: seq<Json>)
      ensures js == OrdersJson(orders)
    {
      hide OrderJson;
      js := [];
      var k := 0;
      while k < |orders|
        invariant k <= |orders|
        invariant js + OrdersJson(orders[k..]) == OrdersJson(orders)
      {
        assert orders[k..][1..] == orders[k + 1..];
        js := js + [OrderJson(orders[k])];
        k := k + 1;
      }
    }

    static lemma {:induction false} NoSide(side: Side)
      ensures SideJson(Flatten(side, [])) == []
    {
    }

    static method SerializeSide(side: Side, levels: seq<Level>) returns (out: seq<Json>)
      requires LevelsOk(levels)
      ensures out == SideJson(Flatten(side, levels))
    {
      hide SideJson, Flatten, LevelsOk, OrdersJson;
      NoSide(side);
      out := [];
      var left := levels;
      while left != []
        invariant LevelsOk(left)
        invariant out + SideJson(Flatten(side, left)) == SideJson(Flatten(side, levels))
        decreases |left|
      {
        var i := BestIndex(side, left);
        SideJsonBest(side, left);
        EraseOk(left, i);
        var js := SerializeOrders(left[i].orders);
        out := out + [Object([Member("price_ticks", Int(left[i].price)), Member("orders", Array(js))])];
        left := EraseAt(left, i);
      }
    }

    static lemma {:induction false} NextBook(books: map<string, Book>, names: seq<string>, i: nat, out: seq<Member>)
      requires forall k :: 0 <= k < |names| ==> names[k] in books
      requires i < |names|
      ensures out + BooksJson(books, names[i..]) ==
              out + [Member(names[i], BookJson(books[names[i]]))] + BooksJson(books, names[i + 1..])
    {
      hide BookJson;
      assert names[i..][1..] == names[i + 1..];
    }

    static lemma {:induction false} NoBooks(books: map<string, Book>)
      ensures BooksJson(books, []) == []
    {
    }

    static method SerializeBooks(books: map<string, LevelBook>, names: seq<string>) returns (out: seq<Member>)
      requires BooksLevelled(books)
      requires forall k :: 0 <= k < |names| ==> names[k] in FlattenBooks(books)
      ensures out == BooksJson(FlattenBooks(books), names)
    {
      hide SideJson, LevelsOk, BooksJson, Flatten;
      out := [];
      var i := 0;
      ghost var flat := FlattenBooks(books);
      while i < |names|
        invariant i <= |names|
        invariant out + BooksJson(flat, names[i..]) == BooksJson(flat, names)
      {
        assert names[i] in flat;
        var book := books[names[i]];
        var bids := SerializeSide(Buy, book.bids);
        var asks := SerializeSide(Sell, book.asks);
        NextBook(flat, names, i, out);
        out := out + [Member(names[i], Object([Member("bids", Array(bids)), Member("asks", Array(asks))]))];
        i := i + 1;
      }
      assert names[i..] == [];
      NoBooks(flat);
    }

    /** `names` is the order in which the hash table of books is visited. */
    method SaveSnapshot(names: seq<string>) returns (snap: Json)
      requires Levelled() && Enumerates(names, Abs().books)
      ensures snap == SnapshotJson(Abs(), names)
    {
      var out := SerializeBooks(books, names);
      snap := Object([Member("sequence", Int(sequence)), Member("books", Object(out))]);
    }

    method RestoreOneLevel(symbol: string, side: Side, level: Json)
      requires Levelled()
      modifies this`books, this`index, this`nextNode
      ensures Levelled() && Abs() == RestoreLevel(old(Abs()), symbol, side, level)
    {
      var price, orders := level.Find("price_ticks"), level.Find("orders");
      if price.None? || orders.None? || !orders.value.Array? {
        return;
      }
      var js := orders.value.elements;
      var i := 0;
      while i < |js|
        invariant i <= |js| && Levelled()
        invariant RestoreOrders(Abs(), symbol, side, price.value, js[i..])
               == RestoreOrders(old(Abs()), symbol, side, price.value, js)
      {
        assert js[i..][1..] == js[i + 1..];
        var id, participant, remaining := js[i].Find("order_id"), js[i].Find("participant_id"), js[i].Find("remaining");
        if id.Some? && participant.Some? && remaining.Some? {
          RestOrder(RestoredOrder(symbol, side, price.value.AsInt(), id.value.AsInt(), participant.value.AsString(),
                                  remaining.value.AsInt()), remaining.value.AsInt());
        }
        i := i + 1;
      }
    }

    method RestoreOneSide(symbol: string, side: Side, levels: Option<Json>)
      requires Levelled()
      modifies this`books, this`index, this`nextNode
      ensures Levelled() && Abs() == RestoreSide(old(Abs()), symbol, side, levels)
    {
      if levels.None? || !levels.value.Array? {
        return;
      }
      OpenLevels(books, symbol);
      books := books[symbol := LevelsFor(books, symbol)];
      ghost var before := Abs();
      var js := levels.value.elements;
      var i := 0;
      while i < |js|
        invariant i <= |js| && Levelled()
        invariant RestoreLevels(Abs(), symbol, side, js[i..]) == RestoreLevels(before, symbol, side, js)
      {
        assert js[i..][1..] == js[i + 1..];
        RestoreOneLevel(symbol, side, js[i]);
        i := i + 1;
      }
    }

    /** False where the source raises an exception for a malformed document. */
    method LoadSnapshot(snap: Json) returns (ok: bool)
      modifies this
      ensures Levelled()
      ensures ok == LoadJson(old(nextNode), snap).Some?
      ensures ok ==> Abs() == LoadJson(old(nextNode), snap).value
    {
      books, index := map[], map[];
      var seqNo, entries := snap.Find("sequence"), snap.Find("books");
      sequence := if seqNo.Some? then seqNo.value.AsInt() else 0;
      if entries.None? || !entries.value.Object? {
        return false;
      }
      ghost var empty := Abs();
      assert empty == Engine(map[], map[], sequence, old(nextNode));
      var members := entries.value.members;
      var i := 0;
      while i < |members|
        invariant i <= |members| && Levelled()
        invariant RestoreBooks(Abs(), members[i..]) == RestoreBooks(empty, members)
      {
        assert members[i..][1..] == members[i + 1..];
        var data := members[i].value;
        if !data.Object? {
          return false;
        }
        RestoreOneSide(members[i].key, Buy, data.Find("bids"));
        RestoreOneSide(members[i].key, Sell, data.Find("asks"));
        i := i + 1;
      }
      return true;
    }
  }
}
