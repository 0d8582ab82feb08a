/** What one pass of the matching loop does to the opposite side, said without
    the loop: which orders leave, which trades are printed, and how much. */
module MatchingLaws {
  import opened Orders
  import opened EngineSpec
  import opened EngineInvariants

  // ---------------------------------------------------------------- whom an order may meet

  /** Is `price` one the sender accepts?  A market order accepts any. */
  predicate Reachable(cmd: AddOrder, price: int) {
    cmd.tif == Market || if cmd.side == Buy then price <= cmd.price else price >= cmd.price
  }

  /** An order of the sender's own that it must not trade with. */
  predicate Own(cmd: AddOrder, o: RestingOrder) {
    cmd.stp != Allow && o.participant == cmd.participant
  }

  /** The orders resting on one side of one book, best first. */
  function Listed(e: Engine, symbol: string, side: Side): seq<RestingOrder> {
    if symbol !in e.books then []
    else match side
      case Buy => e.books[symbol].bids
      case Sell => e.books[symbol].asks
  }

  /** The side an order trades with: buyers with the asks, sellers with the bids. */
  function Opposing(e: Engine, cmd: AddOrder): seq<RestingOrder> {
    Listed(e, cmd.symbol, if cmd.side == Buy then Sell else Buy)
  }

  predicate Tradable(cmd: AddOrder, orders: seq<RestingOrder>) {
    forall i :: 0 <= i < |orders| ==> orders[i].remaining > 0 && orders[i].symbol == cmd.symbol
  }

  // ---------------------------------------------------------------- priority

  /** The trade of `quantity` between `cmd` and the resting order `o`, at the resting price. */
  function TradeWith(cmd: AddOrder, o: RestingOrder, quantity: int): Trade {
    var buys := cmd.side == Buy;
    Trade(symbol := cmd.symbol, price := o.price, quantity := quantity,
          buyerOrderId := if buys then cmd.orderId else o.orderId,
          sellerOrderId := if buys then o.orderId else cmd.orderId,
          buyer := if buys then cmd.participant else o.participant,
          seller := if buys then o.participant else cmd.participant,
          passiveOrderId := o.orderId, aggressiveOrderId := cmd.orderId)
  }

  /** Every order of the list trades in full, in list order, except the sender's own. */
  function FullFills(cmd: AddOrder, orders: seq<RestingOrder>): seq<Trade> {
    if orders == [] then []
    else if Own(cmd, orders[0]) then FullFills(cmd, orders[1..])
    else [TradeWith(cmd, orders[0], orders[0].remaining)] + FullFills(cmd, orders[1..])
  }

  /** An order that leaves the book is reported filled, or cancelled if it is the sender's own. */
  function Leaves(cmd: AddOrder, o: RestingOrder): Event {
    Event(cmd.symbol,
          if Own(cmd, o) then Cancelled(o.orderId, o.remaining, Some("SELF_TRADE_PREVENTION"))
          else Executed(cmd.orderId, o.orderId, o.price, o.remaining))
  }

  function Leaving(cmd: AddOrder, orders: seq<RestingOrder>): seq<Event> {
    if orders == [] then [] else [Leaves(cmd, orders[0])] + Leaving(cmd, orders[1..])
  }

  /** What the first `k` orders have for the sender: their volume, its own excluded. */
  function Supply(cmd: AddOrder, orders: seq<RestingOrder>, k: nat): int
    requires k <= |orders|
  {
    if k == 0 then 0
    else (if Own(cmd, orders[0]) then 0 else orders[0].remaining) + Supply(cmd, orders[1..], k - 1)
  }

  function Ids(orders: seq<RestingOrder>): (ids: set<int>) {
    set o | o in orders :: o.orderId
  }

  /** What is left of `orders` after `k` of them are gone and `cut` is taken from the next. */
  function After(orders: seq<RestingOrder>, k: nat, cut: int): seq<RestingOrder>
    requires k <= |orders| && (cut > 0 ==> k < |orders|)
  {
    if cut > 0 then [orders[k].(remaining := orders[k].remaining - cut)] + orders[k + 1..] else orders[k..]
  }

  function TradesFor(cmd: AddOrder, orders: seq<RestingOrder>, k: nat, cut: int): seq<Trade>
    requires k <= |orders| && (cut > 0 ==> k < |orders|)
  {
    FullFills(cmd, orders[..k]) + if cut > 0 then [TradeWith(cmd, orders[k], cut)] else []
  }

  /** What is reported: the orders that leave, the one filled in part, and the
      sender's own end if self-trade prevention stopped it. */
  function WalkEvents(cmd: AddOrder, orders: seq<RestingOrder>, wanted: int, k: nat, cut: int, stopped: bool): seq<Event>
    requires k <= |orders| && (cut > 0 ==> k < |orders|)
  {
    Leaving(cmd, orders[..k])
    + (if cut > 0 then [Event(cmd.symbol, Executed(cmd.orderId, orders[k].orderId, orders[k].price, cut))] else [])
    + (if stopped then
         [Event(cmd.symbol, Cancelled(cmd.orderId, wanted - Supply(cmd, orders, k), Some("SELF_TRADE_PREVENTION")))]
       else [])
  }

  /** What is still wanted when the walk ends. */
  function LeftOver(cmd: AddOrder, orders: seq<RestingOrder>, wanted: int, k: nat, cut: int, stopped: bool): int
    requires k <= |orders|
  {
    if stopped then 0 else wanted - Supply(cmd, orders, k) - cut
  }

  /** Meeting an order of its own at `k`, or having just passed one, ends the sender:
      CancelAggressor leaves that order where it is, CancelBoth takes it along. */
  predicate Stops(cmd: AddOrder, orders: seq<RestingOrder>, k: nat) {
    || (cmd.stp == CancelAggressor && k < |orders| && Own(cmd, orders[k]) && Reachable(cmd, orders[k].price))
    || (cmd.stp == CancelBoth && 0 < k <= |orders| && Own(cmd, orders[k - 1]))
  }

  /** The first `k` orders are gone and `cut` is taken from the next.  Each was met
      with quantity left, at an acceptable price; an own order is passed over only in
      the modes that cancel it; and the walk ends only when self-trade prevention stops
      the sender, its quantity is used up, the list is exhausted or the next price is out
      of reach. */
  predicate Taken(cmd: AddOrder, orders: seq<RestingOrder>, wanted: int, k: nat, cut: int, stopped: bool) {
    && k <= |orders| && cut >= 0
    && (forall i :: 0 <= i < k ==> Reachable(cmd, orders[i].price) && Supply(cmd, orders, i) < wanted)
    && (forall i :: 0 <= i < k && Own(cmd, orders[i]) ==>
          cmd.stp == CancelPassive || (cmd.stp == CancelBoth && stopped && i == k - 1))
    && (k > 0 ==> Supply(cmd, orders, k) <= wanted)
    && (cut > 0 ==> k < |orders| && cut == wanted - Supply(cmd, orders, k) && cut < orders[k].remaining
                    && !Own(cmd, orders[k]) && Reachable(cmd, orders[k].price))
    && (stopped ==> cut == 0 && Supply(cmd, orders, k) < wanted && Stops(cmd, orders, k))
    && (LeftOver(cmd, orders, wanted, k, cut, stopped) <= 0 || k == |orders| || !Reachable(cmd, orders[k].price))
  }

  /** `r` is what matching leaves of `m`: one walk, whose trades, reports and index
      entries are exactly those of the orders it takes. */
  predicate Walked(cmd: AddOrder, m: Matching, r: Matching, k: nat, cut: int, stopped: bool) {
    var orders := m.opposite;
    && Taken(cmd, orders, m.remaining, k, cut, stopped)
    && r.fault == NoFault
    && r.remaining == LeftOver(cmd, orders, m.remaining, k, cut, stopped)
    && r.opposite == After(orders, k, cut)
    && r.trades == m.trades + TradesFor(cmd, orders, k, cut)
    && r.events == m.events + WalkEvents(cmd, orders, m.remaining, k, cut, stopped)
    && r.index == m.index - Ids(orders[..k])
    && (m.remaining >= 0 ==> 0 <= r.remaining <= m.remaining)
  }

  lemma {:induction false} TakeOneMore(cmd: AddOrder, orders: seq<RestingOrder>, wanted: int, j: nat, cut: int, stopped: bool)
    requires orders != [] && Reachable(cmd, orders[0].price) && wanted > 0
    requires Own(cmd, orders[0]) ==> cmd.stp == CancelPassive
    requires var left := wanted - if Own(cmd, orders[0]) then 0 else orders[0].remaining;
             left >= 0 && Taken(cmd, orders[1..], left, j, cut, stopped)
    ensures Taken(cmd, orders, wanted, j + 1, cut, stopped)
  {
    hide Reachable, Own;
    var tail := orders[1..];
    forall i | 0 <= i < j + 1
      ensures Reachable(cmd, orders[i].price) && Supply(cmd, orders, i) < wanted
    {
      if i > 0 {
        assert orders[i] == tail[i - 1];
      }
    }
    forall i | 0 <= i < j + 1 && Own(cmd, orders[i])
      ensures cmd.stp == CancelPassive || (cmd.stp == CancelBoth && stopped && i == j)
    {
      if i > 0 {
        assert orders[i] == tail[i - 1];
      }
    }
    if j > 0 {
      assert orders[j] == tail[j - 1];
    }
  }

  lemma {:induction false} WalkOneMore(cmd: AddOrder, orders: seq<RestingOrder>, j: nat, cut: int)
    requires j < |orders| && (cut > 0 ==> j + 1 < |orders|)
    ensures After(orders, j + 1, cut) == After(orders[1..], j, cut)
    ensures Ids(orders[..j + 1]) == {orders[0].orderId} + Ids(orders[1..][..j])
    ensures TradesFor(cmd, orders, j + 1, cut) ==
            (if Own(cmd, orders[0]) then [] else [TradeWith(cmd, orders[0], orders[0].remaining)])
            + TradesFor(cmd, orders[1..], j, cut)
  {
    hide TradeWith, Own;
    assert orders[..j + 1][1..] == orders[1..][..j];
    assert orders[..j + 1] == [orders[0]] + orders[1..][..j];
  }

  lemma {:induction false} ReportOneMore(cmd: AddOrder, orders: seq<RestingOrder>, wanted: int, j: nat, cut: int, stopped: bool)
    requires j < |orders| && (cut > 0 ==> j + 1 < |orders|)
    ensures WalkEvents(cmd, orders, wanted, j + 1, cut, stopped) ==
            [Leaves(cmd, orders[0])]
            + WalkEvents(cmd, orders[1..], wanted - if Own(cmd, orders[0]) then 0 else orders[0].remaining, j, cut, stopped)
  {
    hide Leaves, Own;
    assert orders[..j + 1][1..] == orders[1..][..j];
    assert orders[..j + 1][0] == orders[0];
    assert Leaving(cmd, orders[..j + 1]) == [Leaves(cmd, orders[0])] + Leaving(cmd, orders[1..][..j]);
    if cut > 0 {
      assert orders[j + 1] == orders[1..][j];
    }
  }

  /** `m1` is `m` after its first order has left the book. */
  predicate HeadLeft(cmd: AddOrder, m: Matching, m1: Matching)
    requires m.opposite != []
  {
    var passive := m.opposite[0];
    && m1.fault == NoFault && m1.opposite == m.opposite[1..] && m1.index == m.index - {passive.orderId}
    && m1.remaining == m.remaining - (if Own(cmd, passive) then 0 else passive.remaining)
    && m1.trades == m.trades + (if Own(cmd, passive) then [] else [TradeWith(cmd, passive, passive.remaining)])
    && m1.events == m.events + [Leaves(cmd, passive)]
  }

  lemma {:induction false} WalkedPop(cmd: AddOrder, m: Matching, m1: Matching, r: Matching, j: nat, cut: int, stopped: bool)
    requires m.opposite != [] && HeadLeft(cmd, m, m1) && Walked(cmd, m1, r, j, cut, stopped)
    requires Reachable(cmd, m.opposite[0].price) && (Own(cmd, m.opposite[0]) ==> cmd.stp == CancelPassive)
    requires 0 <= m1.remaining <= m.remaining && m.remaining > 0
    ensures Walked(cmd, m, r, j + 1, cut, stopped)
  {
    hide Reachable, Own, TradeWith, Leaves, TradesFor, After, WalkEvents;
    hide Taken;
    TakenBounds(cmd, m1.opposite, m1.remaining, j, cut, stopped);
    TakeOneMore(cmd, m.opposite, m.remaining, j, cut, stopped);
    WalkOneMore(cmd, m.opposite, j, cut);
    ReportOneMore(cmd, m.opposite, m.remaining, j, cut, stopped);
  }

  lemma {:induction false} TakenBounds(cmd: AddOrder, orders: seq<RestingOrder>, wanted: int, k: nat, cut: int, stopped: bool)
    requires Taken(cmd, orders, wanted, k, cut, stopped)
    ensures k <= |orders| && (cut > 0 ==> k < |orders|)
  {
  }

  /** One turn of the loop: the first order leaves, or it is filled in part, or
      self-trade prevention stops the sender. */
  lemma {:induction false} MatchStepCases(cmd: AddOrder, m: Matching)
    requires !Done(cmd, m) && Tradable(cmd, m.opposite)
    ensures var passive, m1 := m.opposite[0], MatchStep(cmd, m);
            && Reachable(cmd, passive.price) && m1.fault == NoFault
            && if Own(cmd, passive) then
                 if cmd.stp == CancelPassive then HeadLeft(cmd, m, m1)
                 else
                   && m1.remaining == 0 && m1.trades == m.trades
                   && (var note := Event(cmd.symbol, Cancelled(cmd.orderId, m.remaining, Some("SELF_TRADE_PREVENTION")));
                       if cmd.stp == CancelAggressor then
                         m1.opposite == m.opposite && m1.index == m.index && m1.events == m.events + [note]
                       else
                         && m1.opposite == m.opposite[1..] && m1.index == m.index - {passive.orderId}
                         && m1.events == m.events + [Leaves(cmd, passive), note])
               else if passive.remaining <= m.remaining then HeadLeft(cmd, m, m1)
               else && m1.remaining == 0 && m1.index == m.index
                    && m1.opposite == After(m.opposite, 0, m.remaining)
                    && m1.trades == m.trades + [TradeWith(cmd, passive, m.remaining)]
                    && m1.events == m.events + [Event(cmd.symbol, Executed(cmd.orderId, passive.orderId, passive.price, m.remaining))]
  {
    if Own(cmd, m.opposite[0]) {
      assert MatchStep(cmd, m) == PreventSelfTrade(cmd, m);
    } else {
      FillCases(cmd, m);
    }
  }

  lemma {:induction false} WalkEndsAtOnce(cmd: AddOrder, m: Matching)
    requires Done(cmd, m) && m.fault == NoFault
    ensures Walked(cmd, m, m, 0, 0, false)
  {
    assert m.opposite[..0] == [];
  }

  lemma {:induction false} WalkStops(cmd: AddOrder, m: Matching)
    requires !Done(cmd, m) && Tradable(cmd, m.opposite)
    requires Own(cmd, m.opposite[0]) && cmd.stp != CancelPassive
    ensures Walked(cmd, m, MatchStep(cmd, m), if cmd.stp == CancelBoth then 1 else 0, 0, true)
  {
    hide MatchStep, Marketable, Reachable;
    MatchStepCases(cmd, m);
    var orders := m.opposite;
    assert orders[..0] == [] && orders[..1] == [orders[0]] && orders[..1][1..] == [];
    assert Supply(cmd, orders, 1) == 0 + Supply(cmd, orders[1..], 0);
    assert Leaving(cmd, orders[..1]) == [Leaves(cmd, orders[0])] + Leaving(cmd, []);
    assert FullFills(cmd, orders[..1]) == FullFills(cmd, []);
  }

  lemma {:induction false} WalkCuts(cmd: AddOrder, m: Matching)
    requires !Done(cmd, m) && Tradable(cmd, m.opposite)
    requires !Own(cmd, m.opposite[0]) && m.remaining < m.opposite[0].remaining
    ensures Walked(cmd, m, MatchStep(cmd, m), 0, m.remaining, false)
  {
    hide MatchStep, Reachable, TradeWith;
    MatchStepCases(cmd, m);
    assert m.opposite[..0] == [];
  }

  /** Price-time priority: matching is a walk down the priority list. */
  lemma {:induction false} PriorityWalk(cmd: AddOrder, m: Matching) returns (k: nat, cut: int, stopped: bool)
    requires m.fault == NoFault && Tradable(cmd, m.opposite)
    ensures Walked(cmd, m, Match(cmd, m), k, cut, stopped)
    decreases |m.opposite| + if m.Active() then 1 else 0
  {
    hide Walked, MatchStep, TradeWith, Reachable, Marketable, Own, Leaves;
    k, cut, stopped := 0, 0, false;
    if Done(cmd, m) {
      WalkEndsAtOnce(cmd, m);
      return;
    }
    var m1 := MatchStep(cmd, m);
    MatchStepCases(cmd, m);
    if Own(cmd, m.opposite[0]) && cmd.stp != CancelPassive {
      WalkStops(cmd, m);
      k, stopped := if cmd.stp == CancelBoth then 1 else 0, true;
      assert Match(cmd, m1) == m1;
    } else if !Own(cmd, m.opposite[0]) && m.remaining < m.opposite[0].remaining {
      WalkCuts(cmd, m);
      cut := m.remaining;
      assert Match(cmd, m1) == m1;
    } else {
      k, cut, stopped := PriorityWalk(cmd, m1);
      WalkedPop(cmd, m, m1, Match(cmd, m), k, cut, stopped);
      k := k + 1;
    }
  }

  lemma {:induction false} SupplyRises(cmd: AddOrder, orders: seq<RestingOrder>, i: nat, k: nat)
    requires Tradable(cmd, orders) && i <= k <= |orders|
    ensures Supply(cmd, orders, i) <= Supply(cmd, orders, k)
  {
    if i > 0 {
      SupplyRises(cmd, orders[1..], i - 1, k - 1);
    } else if k > 0 {
      SupplyRises(cmd, orders[1..], 0, k - 1);
    }
  }

  lemma {:induction false} SupplyNext(cmd: AddOrder, orders: seq<RestingOrder>, k: nat)
    requires k < |orders|
    ensures Supply(cmd, orders, k + 1) == Supply(cmd, orders, k) + if Own(cmd, orders[k]) then 0 else orders[k].remaining
  {
    if k > 0 {
      SupplyNext(cmd, orders[1..], k - 1);
    }
  }

  /** A walk cannot end inside another one of the same order. */
  lemma {:induction false} NoShorterWalk(cmd: AddOrder, orders: seq<RestingOrder>, wanted: int,
                                         k: nat, cut: int, stopped: bool, k1: nat, cut1: int, stopped1: bool)
    requires Tradable(cmd, orders)
    requires Taken(cmd, orders, wanted, k, cut, stopped) && Taken(cmd, orders, wanted, k1, cut1, stopped1)
    ensures k1 <= k
  {
    hide Reachable, Own, Supply, Tradable;
    if k < k1 && cut > 0 {
      SupplyNext(cmd, orders, k);
      SupplyRises(cmd, orders, k + 1, k1);
    }
  }

  /** There is only one such walk. */
  lemma {:induction false} WalkIsUnique(cmd: AddOrder, orders: seq<RestingOrder>, wanted: int,
                                        k: nat, cut: int, stopped: bool, k1: nat, cut1: int, stopped1: bool)
    requires Tradable(cmd, orders)
    requires Taken(cmd, orders, wanted, k, cut, stopped) && Taken(cmd, orders, wanted, k1, cut1, stopped1)
    ensures k == k1 && cut == cut1 && stopped == stopped1
  {
    hide Reachable, Own, Supply, Tradable;
    NoShorterWalk(cmd, orders, wanted, k, cut, stopped, k1, cut1, stopped1);
    NoShorterWalk(cmd, orders, wanted, k1, cut1, stopped1, k, cut, stopped);
  }

  lemma {:induction false} StartTradable(e: Engine, cmd: AddOrder)
    requires WellFormed(e)
    ensures Tradable(cmd, StartMatching(e, cmd).opposite)
    ensures StartMatching(e, cmd).opposite == Opposing(e, cmd)
  {
    BookForOk(e, cmd.symbol);
  }

  /** What every add leaves on the opposite side of the book, and its trades: the walk. */
  lemma {:induction false} AddWalks(e: Engine, cmd: AddOrder) returns (k: nat, cut: int, stopped: bool)
    requires WellFormed(e)
    ensures k <= |Opposing(e, cmd)| && (cut > 0 ==> k < |Opposing(e, cmd)|)
    ensures Opposing(SpecAdd(e, cmd).engine, cmd) == After(Opposing(e, cmd), k, cut)
    ensures SpecAdd(e, cmd).trades == TradesFor(cmd, Opposing(e, cmd), k, cut)
    ensures FokRejected(e, cmd) ==> k == 0 && cut == 0 && !stopped
    ensures !FokRejected(e, cmd) ==>
              && Taken(cmd, Opposing(e, cmd), cmd.quantity, k, cut, stopped)
              && Walked(cmd, StartMatching(e, cmd), Match(cmd, StartMatching(e, cmd)), k, cut, stopped)
  {
    hide WellFormed, Match, AvailableVolume, Walked, Rest, FullFills, Taken, Opposing;
    if FokRejected(e, cmd) {
      k, cut, stopped := 0, 0, false;
      NoFills(cmd);
      RejectedOpposing(e, cmd);
      assert Opposing(e, cmd)[..0] == [];
    } else {
      var m := StartMatching(e, cmd);
      StartTradable(e, cmd);
      k, cut, stopped := PriorityWalk(cmd, m);
      WalkedEnds(cmd, m, Match(cmd, m), k, cut, stopped);
      SettleOpposing(e, cmd, Match(cmd, m));
    }
  }

  lemma {:induction false} NoFills(cmd: AddOrder)
    ensures FullFills(cmd, []) == []
  {
  }

  lemma {:induction false} RejectedOpposing(e: Engine, cmd: AddOrder)
    requires FokRejected(e, cmd)
    ensures Opposing(SpecAdd(e, cmd).engine, cmd) == Opposing(e, cmd)
  {
    hide AvailableVolume;
  }

  lemma {:induction false} WalkedEnds(cmd: AddOrder, m: Matching, r: Matching, k: nat, cut: int, stopped: bool)
    requires Walked(cmd, m, r, k, cut, stopped) && m.trades == []
    ensures k <= |m.opposite| && (cut > 0 ==> k < |m.opposite|)
    ensures Taken(cmd, m.opposite, m.remaining, k, cut, stopped)
    ensures r.opposite == After(m.opposite, k, cut) && r.trades == TradesFor(cmd, m.opposite, k, cut)
  {
    hide FullFills;
    assert [] + TradesFor(cmd, m.opposite, k, cut) == TradesFor(cmd, m.opposite, k, cut);
  }

  /** Settling the remainder does not touch the opposite side. */
  lemma {:induction false} SettleOpposing(e: Engine, cmd: AddOrder, m: Matching)
    ensures Opposing(Settle(e, cmd, m).engine, cmd) == m.opposite && Settle(e, cmd, m).trades == m.trades
  {
    hide Insert;
  }

  /** A trade printed for `cmd` against `passive`. */
  predicate FairTrade(cmd: AddOrder, t: Trade) {
    && t.symbol == cmd.symbol && t.quantity > 0
    && t.aggressiveOrderId == cmd.orderId
    && (cmd.tif != Market ==> if cmd.side == Buy then t.price <= cmd.price else t.price >= cmd.price)
    && (if cmd.side == Buy then t.buyerOrderId == cmd.orderId && t.buyer == cmd.participant
        else t.sellerOrderId == cmd.orderId && t.seller == cmd.participant)
    && (cmd.stp != Allow ==> t.buyer != t.seller)
  }

  lemma {:induction false} FullFillsFair(cmd: AddOrder, orders: seq<RestingOrder>)
    requires Tradable(cmd, orders)
    requires forall i :: 0 <= i < |orders| ==> Reachable(cmd, orders[i].price)
    ensures forall i :: 0 <= i < |FullFills(cmd, orders)| ==> FairTrade(cmd, FullFills(cmd, orders)[i])
  {
    if orders != [] {
      FullFillsFair(cmd, orders[1..]);
    }
  }

  ghost predicate AllFair(cmd: AddOrder, trades: seq<Trade>) {
    forall i :: 0 <= i < |trades| ==> FairTrade(cmd, trades[i])
  }

  lemma {:induction false} WalkFair(cmd: AddOrder, orders: seq<RestingOrder>, k: nat, cut: int)
    requires Tradable(cmd, orders) && k <= |orders|
    requires forall i :: 0 <= i < k ==> Reachable(cmd, orders[i].price)
    requires cut > 0 ==> k < |orders| && Reachable(cmd, orders[k].price) && !Own(cmd, orders[k])
    ensures AllFair(cmd, TradesFor(cmd, orders, k, cut))
  {
    hide FullFills;
    FullFillsFair(cmd, orders[..k]);
  }

  /** Every trade is at a price the sender accepts (any price for a market order),
      for a positive quantity, and never between a participant and itself once
      self-trade prevention is on. */
  lemma {:induction false} TradesAreFair(e: Engine, cmd: AddOrder)
    requires WellFormed(e)
    ensures forall i :: 0 <= i < |SpecAdd(e, cmd).trades| ==> FairTrade(cmd, SpecAdd(e, cmd).trades[i])
  {
    hide WellFormed, Match, FairTrade, TradesFor, FokRejected, Reachable, Own, Tradable;
    if !FokRejected(e, cmd) {
      var m := StartMatching(e, cmd);
      StartTradable(e, cmd);
      var k, cut, stopped := PriorityWalk(cmd, m);
      WalkFair(cmd, m.opposite, k, cut);
      assert [] + TradesFor(cmd, m.opposite, k, cut) == TradesFor(cmd, m.opposite, k, cut);
      assert SpecAdd(e, cmd).trades == Match(cmd, m).trades;
    }
  }

  // ---------------------------------------------------------------- how much trades

  function Traded(trades: seq<Trade>): int {
    if trades == [] then 0 else trades[0].quantity + Traded(trades[1..])
  }

  lemma {:induction false} TradedAppend(trades: seq<Trade>, t: Trade)
    ensures Traded(trades + [t]) == Traded(trades) + t.quantity
  {
    if trades != [] {
      assert (trades + [t])[1..] == trades[1..] + [t];
      TradedAppend(trades[1..], t);
    }
  }

  /** The volume an order can reach: others' orders within its limit, up to its
      own first order if meeting that one ends it. */
  function Fillable(cmd: AddOrder, orders: seq<RestingOrder>): int {
    if orders == [] || !Reachable(cmd, orders[0].price) then 0
    else if !Own(cmd, orders[0]) then orders[0].remaining + Fillable(cmd, orders[1..])
    else if (cmd.stp == CancelAggressor || cmd.stp == CancelBoth) then 0
    else Fillable(cmd, orders[1..])
  }

  lemma {:induction false} FillableNonNegative(cmd: AddOrder, orders: seq<RestingOrder>)
    requires Tradable(cmd, orders)
    ensures Fillable(cmd, orders) >= 0
  {
    if orders != [] {
      FillableNonNegative(cmd, orders[1..]);
    }
  }

  /** In a mode that cancels the sender, an order of its own is reached with quantity left. */
  predicate SelfStop(cmd: AddOrder, orders: seq<RestingOrder>, remaining: int) {
    && (cmd.stp == CancelAggressor || cmd.stp == CancelBoth) && remaining > 0 && orders != [] && Reachable(cmd, orders[0].price)
    && (Own(cmd, orders[0]) || SelfStop(cmd, orders[1..], remaining - orders[0].remaining))
  }

  /** Traded quantity is the smaller of what is wanted and what is reachable, in
      every time-in-force and self-trade-prevention mode; what is not traded remains,
      unless self-trade prevention cancelled the sender. */
  lemma {:induction false} MatchTrades(cmd: AddOrder, m: Matching)
    requires m.fault == NoFault && Tradable(cmd, m.opposite) && m.remaining >= 0
    ensures var r := Match(cmd, m);
            && Traded(r.trades) == Traded(m.trades) + Min(m.remaining, Fillable(cmd, m.opposite))
            && r.remaining == if SelfStop(cmd, m.opposite, m.remaining) then 0
                              else m.remaining - Min(m.remaining, Fillable(cmd, m.opposite))
    decreases |m.opposite| + if m.Active() then 1 else 0
  {
    hide MatchStep, Reachable, Marketable, TradeWith, Leaves, Traded, After;
    FillableNonNegative(cmd, m.opposite);
    if Done(cmd, m) {
      DoneFills(cmd, m);
    } else {
      var passive, m1 := m.opposite[0], MatchStep(cmd, m);
      MatchStepCases(cmd, m);
      FillableNonNegative(cmd, m.opposite[1..]);
      if Own(cmd, passive) && cmd.stp != CancelPassive {
        assert Match(cmd, m1) == m1;
      } else if !Own(cmd, passive) && m.remaining < passive.remaining {
        TradedAppend(m.trades, TradeWith(cmd, passive, m.remaining));
        TradeFor(cmd, passive, m.remaining);
        assert Match(cmd, m1) == m1;
      } else {
        if !Own(cmd, passive) {
          TradedAppend(m.trades, TradeWith(cmd, passive, passive.remaining));
          TradeFor(cmd, passive, passive.remaining);
        } else {
          assert m1.trades == m.trades;
        }
        MatchTrades(cmd, m1);
      }
    }
  }

  lemma {:induction false} TradeFor(cmd: AddOrder, o: RestingOrder, quantity: int)
    ensures TradeWith(cmd, o, quantity).quantity == quantity
  {
  }

  lemma {:induction false} DoneFills(cmd: AddOrder, m: Matching)
    requires Done(cmd, m) && m.fault == NoFault && m.remaining >= 0 && Fillable(cmd, m.opposite) >= 0
    ensures Min(m.remaining, Fillable(cmd, m.opposite)) == 0
    ensures !SelfStop(cmd, m.opposite, m.remaining)
  {
  }

  /** The sender has no order of its own within reach of its limit. */
  predicate MeetsNoSelf(cmd: AddOrder, orders: seq<RestingOrder>) {
    forall i :: 0 <= i < |orders| && Reachable(cmd, orders[i].price) ==> !Own(cmd, orders[i])
  }

  /** The volume within the sender's limit, wherever it stands in the list. */
  function Within(cmd: AddOrder, orders: seq<RestingOrder>): int {
    if orders == [] then 0
    else (if Reachable(cmd, orders[0].price) then orders[0].remaining else 0) + Within(cmd, orders[1..])
  }

  /** In a priority list what follows an unacceptable price is unacceptable too. */
  lemma {:induction false} NoneWithin(cmd: AddOrder, orders: seq<RestingOrder>)
    requires Prioritised(Opposite(cmd.side), orders)
    requires orders != [] ==> !Reachable(cmd, orders[0].price)
    ensures Within(cmd, orders) == 0
  {
    if |orders| > 1 {
      assert Ahead(Opposite(cmd.side), orders[0], orders[1]);
      NoneWithin(cmd, orders[1..]);
    }
  }

  lemma {:induction false} AvailableIsWithin(cmd: AddOrder, orders: seq<RestingOrder>)
    requires cmd.tif != Market && Prioritised(Opposite(cmd.side), orders)
    ensures AvailableVolume(Opposite(cmd.side), orders, cmd.price) == Within(cmd, orders)
  {
    if orders != [] {
      if Reachable(cmd, orders[0].price) {
        AvailableIsWithin(cmd, orders[1..]);
      } else {
        NoneWithin(cmd, orders);
      }
    }
  }

  lemma {:induction false} FillableIsWithin(cmd: AddOrder, orders: seq<RestingOrder>)
    requires Prioritised(Opposite(cmd.side), orders) && MeetsNoSelf(cmd, orders)
    ensures Fillable(cmd, orders) == Within(cmd, orders)
  {
    if orders != [] {
      if Reachable(cmd, orders[0].price) {
        assert MeetsNoSelf(cmd, orders[1..]);
        FillableIsWithin(cmd, orders[1..]);
      } else {
        NoneWithin(cmd, orders);
      }
    }
  }

  lemma {:induction false} MarketReachesAll(cmd: AddOrder, orders: seq<RestingOrder>)
    requires cmd.tif == Market
    ensures Within(cmd, orders) == Volume(orders)
  {
    if orders != [] {
      MarketReachesAll(cmd, orders[1..]);
    }
  }

  lemma {:induction false} OpposingSorted(e: Engine, cmd: AddOrder)
    requires WellFormed(e)
    ensures Prioritised(Opposite(cmd.side), Opposing(e, cmd))
    ensures Opposing(e, cmd) == BookFor(e, cmd.symbol).Of(Opposite(cmd.side))
  {
    BookForOk(e, cmd.symbol);
  }

  /** A fill-or-kill order is turned away exactly when the volume within its limit is too small. */
  lemma {:induction false} KilledExactly(e: Engine, cmd: AddOrder)
    requires WellFormed(e)
    ensures FokRejected(e, cmd) <==> cmd.tif == Fok && Within(cmd, Opposing(e, cmd)) < cmd.quantity
  {
    hide WellFormed, Opposing, Prioritised, AvailableVolume;
    OpposingSorted(e, cmd);
    if cmd.tif == Fok {
      AvailableIsWithin(cmd, Opposing(e, cmd));
    }
  }

  lemma {:induction false} FillableWithinAvailable(cmd: AddOrder, orders: seq<RestingOrder>)
    requires cmd.tif != Market && Tradable(cmd, orders)
    ensures 0 <= Fillable(cmd, orders) <= AvailableVolume(Opposite(cmd.side), orders, cmd.price)
  {
    if orders != [] {
      FillableWithinAvailable(cmd, orders[1..]);
    }
  }

  /** How much an order trades that meets none of the sender's own: all that it wants
      and its limit allows, or nothing if it is fill or kill and that is too little. */
  lemma {:induction false} AddTradesAvailable(e: Engine, cmd: AddOrder)
    requires WellFormed(e) && cmd.quantity >= 0 && MeetsNoSelf(cmd, Opposing(e, cmd))
    ensures var available := Within(cmd, Opposing(e, cmd));
            Traded(SpecAdd(e, cmd).trades) ==
            if available >= cmd.quantity then cmd.quantity
            else if cmd.tif == Fok then 0 else available
  {
    hide WellFormed, Match, FokRejected, Settle, Opposing, Fillable, Within, Tradable, SelfStop, Prioritised;
    KilledExactly(e, cmd);
    OpposingSorted(e, cmd);
    FillableIsWithin(cmd, Opposing(e, cmd));
    if !FokRejected(e, cmd) {
      var m := StartMatching(e, cmd);
      StartTradable(e, cmd);
      MatchTrades(cmd, m);
      SettleOpposing(e, cmd, Match(cmd, m));
    }
  }

  /** A market order takes whatever rests on the other side, at any price. */
  lemma {:induction false} MarketTradesAll(e: Engine, cmd: AddOrder)
    requires WellFormed(e) && cmd.tif == Market && cmd.quantity >= 0
    requires forall i :: 0 <= i < |Opposing(e, cmd)| ==> !Own(cmd, Opposing(e, cmd)[i])
    ensures var all := Volume(Opposing(e, cmd));
            Traded(SpecAdd(e, cmd).trades) == if cmd.quantity <= all then cmd.quantity else all
  {
    hide WellFormed, SpecAdd, Opposing, Own, Within, Volume;
    MarketReachesAll(cmd, Opposing(e, cmd));
    AddTradesAvailable(e, cmd);
  }

  /** Fill or kill, exactly: the order is rejected and the books' orders are
      untouched when too little is within its limit, filled completely when enough is
      reachable, and otherwise — only with self-trade prevention on — accepted and
      filled in part. */
  lemma {:induction false} FillOrKill(e: Engine, cmd: AddOrder)
    requires WellFormed(e) && cmd.quantity > 0 && cmd.tif == Fok
    ensures var r, opp := SpecAdd(e, cmd), Opposing(e, cmd);
            && (Within(cmd, opp) < cmd.quantity ==>
                  && r.events == [Event(cmd.symbol, Rejected(cmd.orderId, "FOK_UNFILLABLE"))]
                  && r.trades == [] && r.engine.index == e.index && forall s :: BookFor(r.engine, s) == BookFor(e, s))
            && (Within(cmd, opp) >= cmd.quantity ==>
                  && r.events != [] && r.events[0] == Event(cmd.symbol, Accepted(cmd.orderId, cmd.quantity))
                  && (Traded(r.trades) == cmd.quantity <==> Fillable(cmd, opp) >= cmd.quantity))
            && (MeetsNoSelf(cmd, opp) && Within(cmd, opp) >= cmd.quantity ==> Traded(r.trades) == cmd.quantity)
  {
    hide WellFormed, Match, AvailableVolume, Opposing, Fillable, Within, Tradable, SelfStop, Prioritised, Walked;
    KilledExactly(e, cmd);
    if !FokRejected(e, cmd) {
      var m := StartMatching(e, cmd);
      StartTradable(e, cmd);
      MatchTrades(cmd, m);
      FillableNonNegative(cmd, Opposing(e, cmd));
      SettleOpposing(e, cmd, Match(cmd, m));
      var k, cut, stopped := PriorityWalk(cmd, m);
      FirstStays(cmd, m, Match(cmd, m), k, cut, stopped);
      if MeetsNoSelf(cmd, Opposing(e, cmd)) {
        OpposingSorted(e, cmd);
        FillableIsWithin(cmd, Opposing(e, cmd));
      }
    }
  }

  lemma {:induction false} FirstStays(cmd: AddOrder, m: Matching, r: Matching, k: nat, cut: int, stopped: bool)
    requires Walked(cmd, m, r, k, cut, stopped) && m.events != []
    ensures r.events != [] && r.events[0] == m.events[0]
  {
    hide WalkEvents;
  }
}
