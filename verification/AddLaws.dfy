/** What an add leaves behind, and what a replacement inherits, said without the
    loop: who trades with whom, where the remainder rests, what stays untouched. */
module AddLaws {
  import opened Orders
  import opened EngineSpec
  import opened EngineInvariants
  import opened MatchingLaws
  import opened EventLaws

  // ---------------------------------------------------------------- who trades with whom

  /** A trade between `cmd` and the resting order `o`, at the resting price. */
  predicate Between(cmd: AddOrder, o: RestingOrder, t: Trade) {
    && t.symbol == cmd.symbol && t.price == o.price && 0 < t.quantity <= o.remaining
    && t.aggressiveOrderId == cmd.orderId && t.passiveOrderId == o.orderId
    && if cmd.side == Buy then
         t.buyerOrderId == cmd.orderId && t.buyer == cmd.participant
         && t.sellerOrderId == o.orderId && t.seller == o.participant
       else
         t.sellerOrderId == cmd.orderId && t.seller == cmd.participant
         && t.buyerOrderId == o.orderId && t.buyer == o.participant
  }

  /** `at[i]` is the order that trade `i` is with: each order at most once, in list order. */
  ghost predicate Pairs(cmd: AddOrder, orders: seq<RestingOrder>, trades: seq<Trade>, at: seq<nat>) {
    && |at| == |trades|
    && (forall i :: 0 <= i < |at| ==> at[i] < |orders| && Between(cmd, orders[at[i]], trades[i]))
    && (forall i, j :: 0 <= i < j < |at| ==> at[i] < at[j])
  }

  function Later(at: seq<nat>): (r: seq<nat>)
    ensures |r| == |at|
  {
    seq(|at|, i requires 0 <= i < |at| => at[i] + 1)
  }

  lemma {:induction false} PairsLater(cmd: AddOrder, orders: seq<RestingOrder>, trades: seq<Trade>, at: seq<nat>)
    requires orders != [] && Pairs(cmd, orders[1..], trades, at)
    ensures Pairs(cmd, orders, trades, Later(at))
  {
    hide Between;
    forall i | 0 <= i < |at|
      ensures Later(at)[i] < |orders| && Between(cmd, orders[Later(at)[i]], trades[i])
    {
      assert orders[1..][at[i]] == orders[at[i] + 1];
    }
  }

  lemma {:induction false} PairsFirst(cmd: AddOrder, orders: seq<RestingOrder>, trades: seq<Trade>, at: seq<nat>, t: Trade)
    requires orders != [] && Pairs(cmd, orders, trades, at) && Between(cmd, orders[0], t)
    requires forall i :: 0 <= i < |at| ==> at[i] > 0
    ensures Pairs(cmd, orders, [t] + trades, [0] + at)
  {
    hide Between;
  }

  lemma {:induction false} WholeBetween(cmd: AddOrder, o: RestingOrder)
    requires o.remaining > 0
    ensures Between(cmd, o, TradeWith(cmd, o, o.remaining))
  {
  }

  lemma {:induction false} FullFillsPair(cmd: AddOrder, orders: seq<RestingOrder>) returns (at: seq<nat>)
    requires Tradable(cmd, orders)
    ensures Pairs(cmd, orders, FullFills(cmd, orders), at)
  {
    hide Pairs, Between, TradeWith, Own;
    if orders == [] {
      at := [];
      NoPairs(cmd);
    } else {
      var rest := FullFillsPair(cmd, orders[1..]);
      PairsLater(cmd, orders, FullFills(cmd, orders[1..]), rest);
      at := Later(rest);
      if !Own(cmd, orders[0]) {
        WholeBetween(cmd, orders[0]);
        PairsFirst(cmd, orders, FullFills(cmd, orders[1..]), at, TradeWith(cmd, orders[0], orders[0].remaining));
        at := [0] + at;
      }
    }
  }

  lemma {:induction false} NoPairs(cmd: AddOrder)
    ensures Pairs(cmd, [], [], [])
  {
  }

  lemma {:induction false} OneMorePair(cmd: AddOrder, orders: seq<RestingOrder>, k: nat, trades: seq<Trade>, at: seq<nat>, t: Trade)
    requires k < |orders| && Pairs(cmd, orders[..k], trades, at) && Between(cmd, orders[k], t)
    ensures Pairs(cmd, orders, trades + [t], at + [k])
  {
    hide Between;
  }

  lemma {:induction false} LongerList(cmd: AddOrder, orders: seq<RestingOrder>, k: nat, trades: seq<Trade>, at: seq<nat>)
    requires k <= |orders| && Pairs(cmd, orders[..k], trades, at)
    ensures Pairs(cmd, orders, trades, at)
  {
    hide Between;
  }

  /** Every trade is with an order of the opposite side, at its price and for no
      more than it had, both parties named on their proper sides; and orders are
      met in priority order, each at most once. */
  lemma {:induction false} TradesNameOrders(e: Engine, cmd: AddOrder) returns (at: seq<nat>)
    requires WellFormed(e)
    ensures Pairs(cmd, Opposing(e, cmd), SpecAdd(e, cmd).trades, at)
  {
    hide WellFormed, Match, FullFills, Between, FokRejected, Reachable, Own;
    at := [];
    if !FokRejected(e, cmd) {
      var m := StartMatching(e, cmd);
      StartTradable(e, cmd);
      var k, cut, stopped := PriorityWalk(cmd, m);
      var orders := m.opposite;
      at := FullFillsPair(cmd, orders[..k]);
      var fills := FullFills(cmd, orders[..k]);
      assert [] + fills == fills && [] + TradesFor(cmd, orders, k, cut) == TradesFor(cmd, orders, k, cut);
      if cut > 0 {
        CutBetween(cmd, orders[k], cut);
        OneMorePair(cmd, orders, k, fills, at, TradeWith(cmd, orders[k], cut));
        at := at + [k];
      } else {
        LongerList(cmd, orders, k, fills, at);
      }
      assert SpecAdd(e, cmd).trades == Match(cmd, m).trades;
    }
  }

  lemma {:induction false} CutBetween(cmd: AddOrder, o: RestingOrder, cut: int)
    requires 0 < cut < o.remaining
    ensures Between(cmd, o, TradeWith(cmd, o, cut))
  {
  }

  // ---------------------------------------------------------------- where the remainder rests

  /** What `cmd` becomes on the book: `entered` is the number of the last event before it rests. */
  predicate Remainder(e: Engine, cmd: AddOrder, o: RestingOrder, left: int, entered: int) {
    && o.symbol == cmd.symbol && o.orderId == cmd.orderId && o.participant == cmd.participant && o.side == cmd.side
    && o.price == cmd.price && o.remaining == left && o.entered == entered && o.node == e.nextNode
  }

  /** `after` is `before` with `o` behind everything at its price or better. */
  predicate Queued(side: Side, before: seq<RestingOrder>, after: seq<RestingOrder>, o: RestingOrder, k: nat) {
    && k <= |before| && after == before[..k] + [o] + before[k..]
    && (forall i :: 0 <= i < k ==> if side == Buy then before[i].price >= o.price else before[i].price <= o.price)
    && (forall i :: k <= i < |before| ==> if side == Buy then before[i].price < o.price else before[i].price > o.price)
  }

  predicate Rests(cmd: AddOrder, left: int) {
    cmd.tif == Gtc && left > 0
  }

  /** The sender's own side of the book changes only by the remainder of a GTC
      order, queued behind its price; no other book changes. */
  ghost predicate OwnSide(e: Engine, cmd: AddOrder, r: Outcome, left: int) {
    var before, after := Listed(e, cmd.symbol, cmd.side), Listed(r.engine, cmd.symbol, cmd.side);
    && r.engine.books.Keys == e.books.Keys + {cmd.symbol}
    && (forall s :: s in e.books && s != cmd.symbol ==> r.engine.books[s] == e.books[s])
    && if Rests(cmd, left) then
         exists o, k :: Remainder(e, cmd, o, left, r.engine.sequence - 1) && Queued(cmd.side, before, after, o, k)
       else after == before
  }

  /** What an add says last: the remainder rests, or is cancelled, or goes without a word. */
  function Closing(cmd: AddOrder, left: int): seq<Event> {
    if left <= 0 then []
    else match cmd.tif
      case Gtc => [Event(cmd.symbol, Rested(cmd.orderId, left))]
      case Ioc => [Event(cmd.symbol, Cancelled(cmd.orderId, left, None))]
      case Market => [Event(cmd.symbol, Cancelled(cmd.orderId, left, None))]
      case Fok => []
  }

  /** Everything that adding an order does, told by the walk it takes. */
  ghost predicate Added(e: Engine, cmd: AddOrder, r: Outcome, k: nat, cut: int, stopped: bool) {
    var opp := Opposing(e, cmd);
    && Taken(cmd, opp, cmd.quantity, k, cut, stopped)
    && var left := LeftOver(cmd, opp, cmd.quantity, k, cut, stopped);
    && r.fault == NoFault
    && r.trades == TradesFor(cmd, opp, k, cut)
    && r.events == [Event(cmd.symbol, Accepted(cmd.orderId, cmd.quantity))]
                   + WalkEvents(cmd, opp, cmd.quantity, k, cut, stopped) + Closing(cmd, left)
    && Opposing(r.engine, cmd) == After(opp, k, cut)
    && OwnSide(e, cmd, r, left)
    && r.engine.index == (var kept := e.index - Ids(opp[..k]);
                          if Rests(cmd, left) then
                            kept[cmd.orderId := Location(cmd.symbol, cmd.side, cmd.price, e.nextNode)]
                          else kept)
    && r.engine.sequence == e.sequence + |r.events|
    && r.engine.nextNode == e.nextNode + if Rests(cmd, left) then 1 else 0
  }

  /** A fill-or-kill order for which too little is within its limit changes nothing. */
  ghost predicate TurnedAway(e: Engine, cmd: AddOrder, r: Outcome) {
    && r.fault == NoFault && r.trades == []
    && r.events == [Event(cmd.symbol, Rejected(cmd.orderId, "FOK_UNFILLABLE"))]
    && OwnSide(e, cmd, r, 0) && Opposing(r.engine, cmd) == Opposing(e, cmd)
    && r.engine.index == e.index && r.engine.sequence == e.sequence + 1 && r.engine.nextNode == e.nextNode
  }

  ghost predicate AddedOrTurnedAway(e: Engine, cmd: AddOrder, r: Outcome, k: nat, cut: int, stopped: bool) {
    if cmd.tif == Fok && Within(cmd, Opposing(e, cmd)) < cmd.quantity then TurnedAway(e, cmd, r)
    else Added(e, cmd, r, k, cut, stopped)
  }

  lemma {:induction false} InsertQueues(symbol: string, side: Side, limit: nat, before: seq<RestingOrder>, o: RestingOrder) returns (k: nat)
    requires SideOk(symbol, side, limit, before)
    ensures Queued(side, before, Insert(side, before, o), o, k)
  {
    hide Insert;
    k := InsertAt(side, before, o);
    forall i | k <= i < |before|
      ensures Better(side, o.price, before[i].price)
    {
      if i > k {
        assert Ahead(side, before[k], before[i]);
      }
    }
  }

  lemma {:induction false} SettleOwnSide(e: Engine, cmd: AddOrder, m: Matching)
    requires WellFormed(e) && m.fault == NoFault
    ensures OwnSide(e, cmd, Settle(e, cmd, m), m.remaining)
  {
    hide Insert, Queued, SideOk, IndexOk, Crossed, Better;
    BookForOk(e, cmd.symbol);
    if m.remaining > 0 && cmd.tif == Gtc {
      var before := Listed(e, cmd.symbol, cmd.side);
      assert before == BookFor(e, cmd.symbol).Of(cmd.side);
      var o := RestingOrder(cmd.symbol, cmd.orderId, cmd.participant, cmd.side, cmd.price, m.remaining,
                            e.sequence + |m.events|, e.nextNode);
      var k := InsertQueues(cmd.symbol, cmd.side, e.nextNode, before, o);
      assert BookFor(During(e, cmd, m), cmd.symbol).Of(cmd.side) == before;
      assert Listed(Settle(e, cmd, m).engine, cmd.symbol, cmd.side) == Insert(cmd.side, before, o);
      assert Remainder(e, cmd, o, m.remaining, e.sequence + |m.events|);
    }
  }

  lemma {:induction false} SettleCloses(e: Engine, cmd: AddOrder, m: Matching)
    requires m.fault == NoFault
    ensures var r := Settle(e, cmd, m);
            && r.events == m.events + Closing(cmd, m.remaining)
            && r.engine.sequence == e.sequence + |r.events|
            && r.engine.index == (if Rests(cmd, m.remaining) then
                                    m.index[cmd.orderId := Location(cmd.symbol, cmd.side, cmd.price, e.nextNode)]
                                  else m.index)
            && r.engine.nextNode == e.nextNode + if Rests(cmd, m.remaining) then 1 else 0
  {
    hide Insert, Crossed;
    assert m.events + [] == m.events;
  }

  lemma {:induction false} WalkReports(cmd: AddOrder, m: Matching, r: Matching, k: nat, cut: int, stopped: bool)
    requires Walked(cmd, m, r, k, cut, stopped)
    ensures k <= |m.opposite| && (cut > 0 ==> k < |m.opposite|)
    ensures r.fault == NoFault && r.remaining == LeftOver(cmd, m.opposite, m.remaining, k, cut, stopped)
    ensures r.events == m.events + WalkEvents(cmd, m.opposite, m.remaining, k, cut, stopped)
    ensures r.index == m.index - Ids(m.opposite[..k])
  {
    hide WalkEvents;
  }

  /** Every add, in full: its walk, trades, reports, both sides of the book, the
      index and the numbers; nothing else changes. */
  lemma {:induction false} AddDoes(e: Engine, cmd: AddOrder) returns (k: nat, cut: int, stopped: bool)
    requires WellFormed(e)
    ensures AddedOrTurnedAway(e, cmd, SpecAdd(e, cmd), k, cut, stopped)
  {
    hide WellFormed, Match, OwnSide, Settle, FokRejected, Tradable, Within, Walked, Taken, Opposing, LeftOver,
         WalkEvents, Closing, TradesFor, After;
    AddOk(e, cmd);
    KilledExactly(e, cmd);
    k, cut, stopped := AddWalks(e, cmd);
    if FokRejected(e, cmd) {
      RejectedOwnSide(e, cmd);
      RejectedOpposing(e, cmd);
    } else {
      var m := StartMatching(e, cmd);
      StartTradable(e, cmd);
      WalkReports(cmd, m, Match(cmd, m), k, cut, stopped);
      SettleOwnSide(e, cmd, Match(cmd, m));
      SettleCloses(e, cmd, Match(cmd, m));
    }
  }

  /** What is left over is the quantity less what traded, or nothing if self-trade
      prevention cancelled the sender. */
  lemma {:induction false} AddOwnSide(e: Engine, cmd: AddOrder) returns (left: int)
    requires WellFormed(e)
    ensures OwnSide(e, cmd, SpecAdd(e, cmd), left)
    ensures left == if FokRejected(e, cmd) || SelfStop(cmd, Opposing(e, cmd), cmd.quantity) then 0
                    else cmd.quantity - Traded(SpecAdd(e, cmd).trades)
  {
    hide WellFormed, Match, OwnSide, Settle, FokRejected, Tradable, Fillable, SelfStop;
    if FokRejected(e, cmd) {
      left := 0;
      RejectedOwnSide(e, cmd);
    } else {
      var m := StartMatching(e, cmd);
      StartTradable(e, cmd);
      var k, cut, stopped := PriorityWalk(cmd, m);
      left := Match(cmd, m).remaining;
      SettleOwnSide(e, cmd, Match(cmd, m));
      SettleTrades(e, cmd, Match(cmd, m));
      if cmd.quantity >= 0 {
        MatchTrades(cmd, m);
      } else {
        NothingWanted(cmd, m);
      }
    }
  }

  lemma {:induction false} NothingWanted(cmd: AddOrder, m: Matching)
    requires m.remaining < 0 && m.trades == []
    ensures Match(cmd, m) == m && Traded(m.trades) == 0 && !SelfStop(cmd, m.opposite, m.remaining)
  {
  }

  lemma {:induction false} SettleTrades(e: Engine, cmd: AddOrder, m: Matching)
    ensures Settle(e, cmd, m).trades == m.trades
  {
    hide Rest;
  }

  lemma {:induction false} RejectedOwnSide(e: Engine, cmd: AddOrder)
    requires FokRejected(e, cmd)
    ensures OwnSide(e, cmd, SpecAdd(e, cmd), 0)
  {
    hide AvailableVolume;
  }

  // ---------------------------------------------------------------- meeting one's own order

  /** The sender's first own order stands at `j`, within reach, and others' orders before
      it do not use up the quantity. */
  predicate Meets(cmd: AddOrder, orders: seq<RestingOrder>, j: nat) {
    && j < |orders| && Own(cmd, orders[j]) && Supply(cmd, orders, j) < cmd.quantity
    && (forall i :: 0 <= i < j ==> !Own(cmd, orders[i]))
    && (forall i :: 0 <= i <= j ==> Reachable(cmd, orders[i].price))
  }

  lemma {:induction false} SuppliedBefore(cmd: AddOrder, orders: seq<RestingOrder>, j: nat)
    requires Tradable(cmd, orders) && Meets(cmd, orders, j)
    ensures forall i :: 0 <= i <= j ==> Supply(cmd, orders, i) < cmd.quantity
    ensures Supply(cmd, orders, j + 1) == Supply(cmd, orders, j)
  {
    hide Supply, Own, Tradable;
    forall i | 0 <= i <= j
      ensures Supply(cmd, orders, i) < cmd.quantity
    {
      SupplyRises(cmd, orders, i, j);
    }
    SupplyNext(cmd, orders, j);
  }

  lemma {:induction false} WalksUpTo(cmd: AddOrder, orders: seq<RestingOrder>, j: nat)
    requires Tradable(cmd, orders) && Meets(cmd, orders, j)
    ensures cmd.stp == CancelAggressor ==> Taken(cmd, orders, cmd.quantity, j, 0, true)
    ensures cmd.stp == CancelBoth ==> Taken(cmd, orders, cmd.quantity, j + 1, 0, true)
  {
    hide Supply, Own, Tradable, Reachable;
    SuppliedBefore(cmd, orders, j);
  }

  lemma {:induction false} WalksPast(cmd: AddOrder, orders: seq<RestingOrder>, j: nat, k: nat, cut: int, stopped: bool)
    requires Tradable(cmd, orders) && Meets(cmd, orders, j)
    requires cmd.stp == CancelPassive && Taken(cmd, orders, cmd.quantity, k, cut, stopped)
    ensures k > j && !stopped
  {
    hide Supply, Own, Tradable, Reachable;
    SuppliedBefore(cmd, orders, j);
    if k < j {
      SupplyNext(cmd, orders, k);
    }
  }

  /** Self-trade prevention, mode by mode.  An order that meets the sender's own one at `j`
      with quantity left has traded with all before it and, with CancelAggressor, is itself
      cancelled there; with CancelBoth the two are cancelled together; with
      CancelPassive the own order is cancelled and the walk goes on. */
  lemma {:induction false} OwnOrderMet(e: Engine, cmd: AddOrder, j: nat) returns (k: nat, cut: int, stopped: bool)
    requires WellFormed(e) && Meets(cmd, Opposing(e, cmd), j)
    requires cmd.tif == Fok ==> Within(cmd, Opposing(e, cmd)) >= cmd.quantity
    ensures Added(e, cmd, SpecAdd(e, cmd), k, cut, stopped)
    ensures cmd.stp == CancelAggressor ==> k == j && cut == 0 && stopped
    ensures cmd.stp == CancelBoth ==> k == j + 1 && cut == 0 && stopped
    ensures cmd.stp == CancelPassive ==> k > j && !stopped
  {
    hide WellFormed, Tradable, Meets, Taken, Opposing, Within, SpecAdd, StartMatching;
    var opp := Opposing(e, cmd);
    k, cut, stopped := AddDoes(e, cmd);
    StartTradable(e, cmd);
    WalksUpTo(cmd, opp, j);
    if cmd.stp == CancelAggressor {
      WalkIsUnique(cmd, opp, cmd.quantity, k, cut, stopped, j, 0, true);
    } else if cmd.stp == CancelBoth {
      WalkIsUnique(cmd, opp, cmd.quantity, k, cut, stopped, j + 1, 0, true);
    } else if cmd.stp == CancelPassive {
      WalksPast(cmd, opp, j, k, cut, stopped);
    }
  }

  // ---------------------------------------------------------------- replace

  /** A replacement is announced as the cancel of what was left of the old order;
      then it is an add of the new id, price and quantity, for the old order's
      participant, on its side, under the symbol of the command, which may trade
      with anyone. */
  lemma {:induction false} ReplaceInherits(e: Engine, cmd: ReplaceOrder) returns (add: AddOrder, k: nat, cut: int, stopped: bool)
    requires WellFormed(e) && cmd.orderId in e.index
    ensures var o := Located(e.books, e.index[cmd.orderId]);
            var e1 := SpecCancel(e, CancelOrder(cmd.symbol, cmd.orderId)).engine;
            var r := SpecReplace(e, cmd);
            && o.Some? && add.participant == o.value.participant && add.side == e.index[cmd.orderId].side
            && add.symbol == cmd.symbol && add.orderId == cmd.newOrderId && add.price == cmd.newPrice
            && add.quantity == cmd.newQuantity && add.tif == cmd.tif && add.stp == Allow
            && r.events != [] && r.events[0] == Event(cmd.symbol, Cancelled(cmd.orderId, o.value.remaining, None))
            && AddedOrTurnedAway(e1, add, r.(events := r.events[1..]), k, cut, stopped)
  {
    hide WellFormed, SpecAdd, AddedOrTurnedAway, Located;
    CancelReports(e, CancelOrder(cmd.symbol, cmd.orderId));
    CancelOk(e, CancelOrder(cmd.symbol, cmd.orderId));
    var loc := e.index[cmd.orderId];
    add := Replacement(cmd, Located(e.books, loc).value.participant, loc.side);
    var first := SpecCancel(e, CancelOrder(cmd.symbol, cmd.orderId));
    k, cut, stopped := AddDoes(first.engine, add);
    var second := SpecAdd(first.engine, add);
    assert (first.events + second.events)[1..] == second.events;
    assert SpecReplace(e, cmd).(events := second.events) == second;
  }
}
