/** What the matching engine computes, with each side of a book flattened into
    one list in priority order: best price first, then first come first served.
    The class in MatchingEngine.dfy computes the same with ordered price levels
    and nested loops. */
module EngineSpec {
  import opened Orders

  datatype Book = Book(bids: seq<RestingOrder>, asks: seq<RestingOrder>) {
    function Of(side: Side): seq<RestingOrder> {
      if side == Buy then bids else asks
    }

    function With(side: Side, orders: seq<RestingOrder>): Book {
      if side == Buy then this.(bids := orders) else this.(asks := orders)
    }
  }

  /** `nextNode` stands for the list allocator: the number of the next node. */
  datatype Engine = Engine(books: map<string, Book>, index: map<int, Location>, sequence: int, nextNode: nat)

  const EMPTY_ENGINE := Engine(map[], map[], 0, 0)

  /** Result of one command.  A fault stops the command where it is raised. */
  datatype Outcome = Outcome(engine: Engine, events: seq<Event>, trades: seq<Trade>, fault: Fault)

  function BookIn(books: map<string, Book>, symbol: string): Book {
    if symbol in books then books[symbol] else Book([], [])
  }

  function BookFor(e: Engine, symbol: string): Book {
    BookIn(e.books, symbol)
  }

  function SetSide(e: Engine, symbol: string, side: Side, orders: seq<RestingOrder>): Engine {
    e.(books := e.books[symbol := BookFor(e, symbol).With(side, orders)])
  }

  // ---------------------------------------------------------------- priority

  /** Is price `p` strictly better than `q` for an order resting on `side`? */
  predicate Better(side: Side, p: int, q: int) {
    if side == Buy then p > q else p < q
  }

  /** Places an order behind everything at its price or better. */
  function Insert(side: Side, orders: seq<RestingOrder>, o: RestingOrder): (r: seq<RestingOrder>)
    ensures |r| == |orders| + 1
  {
    if orders == [] then [o]
    else if Better(side, o.price, orders[0].price) then [o] + orders
    else [orders[0]] + Insert(side, orders[1..], o)
  }

  function Lookup(orders: seq<RestingOrder>, node: nat): Option<RestingOrder> {
    if orders == [] then None
    else if orders[0].node == node then Some(orders[0])
    else Lookup(orders[1..], node)
  }

  function Remove(orders: seq<RestingOrder>, node: nat): seq<RestingOrder> {
    if orders == [] then []
    else if orders[0].node == node then orders[1..]
    else [orders[0]] + Remove(orders[1..], node)
  }

  // ---------------------------------------------------------------- matching

  /** May `cmd` trade at `price`, the price of the best opposite level? */
  predicate Marketable(cmd: AddOrder, price: int) {
    cmd.tif == Market || !Better(Opposite(cmd.side), cmd.price, price)
  }

  predicate SelfMatch(cmd: AddOrder, passive: RestingOrder) {
    passive.participant == cmd.participant && cmd.stp != Allow
  }

  predicate DropsPassive(cmd: AddOrder) {
    cmd.stp == CancelPassive || cmd.stp == CancelBoth
  }

  predicate DropsAggressor(cmd: AddOrder) {
    cmd.stp == CancelAggressor || cmd.stp == CancelBoth
  }

  function BuildTrade(active: AddOrder, passive: RestingOrder, quantity: int): Trade {
    if active.side == Buy then
      Trade(active.symbol, passive.price, quantity, active.orderId, passive.orderId,
            active.participant, passive.participant, passive.orderId, active.orderId)
    else
      Trade(active.symbol, passive.price, quantity, passive.orderId, active.orderId,
            passive.participant, active.participant, passive.orderId, active.orderId)
  }

  /** The variables of the matching loop. */
  datatype Matching = Matching(
    remaining: int, opposite: seq<RestingOrder>, index: map<int, Location>,
    events: seq<Event>, trades: seq<Trade>, fault: Fault)
  {
    predicate Active() {
      fault == NoFault && remaining > 0
    }

    function Log(symbol: string, payload: Payload): Matching {
      this.(events := events + [Event(symbol, payload)])
    }

    /** The head leaves the book and its id leaves the index. */
    function Pop(): Matching
      requires opposite != []
    {
      this.(opposite := opposite[1..], index := index - {opposite[0].orderId})
    }
  }

  function PreventSelfTrade(cmd: AddOrder, m: Matching): Matching
    requires m.opposite != []
  {
    var passive := m.opposite[0];
    var m1 :=
      if DropsPassive(cmd) then
        m.Log(cmd.symbol, Cancelled(passive.orderId, passive.remaining, Some(STP_REASON))).Pop()
      else m;
    if DropsAggressor(cmd) then
      m1.Log(cmd.symbol, Cancelled(cmd.orderId, m1.remaining, Some(STP_REASON))).(remaining := 0)
    else m1
  }

  function Min(a: int, b: int): int {
    if a < b then a else b
  }

  function Fill(cmd: AddOrder, m: Matching): Matching
    requires m.opposite != []
  {
    var passive := m.opposite[0];
    var fill := Min(m.remaining, passive.remaining);
    if fill <= 0 then m.(fault := NonPositiveFill) else
    var left := passive.remaining - fill;
    var m1 := m.(remaining := m.remaining - fill,
                 opposite := [passive.(remaining := left)] + m.opposite[1..]);
    if left < 0 then m1.(fault := PassiveOverfill) else
    if passive.symbol != cmd.symbol then m1.(fault := SymbolMismatch) else
    var m2 := m1.(trades := m1.trades + [BuildTrade(cmd, passive, fill)])
                .Log(cmd.symbol, Executed(cmd.orderId, passive.orderId, passive.price, fill));
    if left == 0 then m2.Pop() else m2
  }

  function MatchStep(cmd: AddOrder, m: Matching): Matching
    requires m.opposite != []
  {
    if SelfMatch(cmd, m.opposite[0]) then PreventSelfTrade(cmd, m) else Fill(cmd, m)
  }

  predicate Done(cmd: AddOrder, m: Matching) {
    !m.Active() || m.opposite == [] || !Marketable(cmd, m.opposite[0].price)
  }

  /** The whole matching loop as one walk down the opposite list. */
  function Match(cmd: AddOrder, m: Matching): Matching
    decreases |m.opposite| + if m.Active() then 1 else 0
  {
    if Done(cmd, m) then m else Match(cmd, MatchStep(cmd, m))
  }

  // ---------------------------------------------------------------- commands

  /** What rests in a list of orders. */
  function Volume(orders: seq<RestingOrder>): int {
    if orders == [] then 0 else orders[0].remaining + Volume(orders[1..])
  }

  /** Volume resting on `side` at `limit` or better, stopping at the first worse price. */
  function AvailableVolume(side: Side, orders: seq<RestingOrder>, limit: int): int {
    if orders == [] || Better(side, limit, orders[0].price) then 0
    else orders[0].remaining + AvailableVolume(side, orders[1..], limit)
  }

  predicate Crossed(b: Book) {
    b.bids != [] && b.asks != [] && b.bids[0].price >= b.asks[0].price
  }

  function StartMatching(e: Engine, cmd: AddOrder): Matching {
    Matching(cmd.quantity, BookFor(e, cmd.symbol).Of(Opposite(cmd.side)), e.index,
             [Event(cmd.symbol, Accepted(cmd.orderId, cmd.quantity))], [], NoFault)
  }

  /** The engine while a match is under way. */
  function During(e: Engine, cmd: AddOrder, m: Matching): Engine {
    SetSide(e, cmd.symbol, Opposite(cmd.side), m.opposite).(index := m.index)
  }

  /** Queues an order at the back of its level and indexes it. */
  function Rest(e: Engine, cmd: AddOrder, remaining: int): Engine {
    var o := RestingOrder(cmd.symbol, cmd.orderId, cmd.participant, cmd.side, cmd.price, remaining,
                          e.sequence, e.nextNode);
    SetSide(e, cmd.symbol, cmd.side, Insert(cmd.side, BookFor(e, cmd.symbol).Of(cmd.side), o))
    .(index := e.index[cmd.orderId := Location(cmd.symbol, cmd.side, cmd.price, e.nextNode)],
      nextNode := e.nextNode + 1)
  }

  predicate FokRejected(e: Engine, cmd: AddOrder) {
    && cmd.tif == Fok
    && var opp := Opposite(cmd.side);
       AvailableVolume(opp, BookFor(e, cmd.symbol).Of(opp), cmd.price) < cmd.quantity
  }

  function SpecAdd(e: Engine, cmd: AddOrder): Outcome {
    if FokRejected(e, cmd) then
      Outcome(e.(books := e.books[cmd.symbol := BookFor(e, cmd.symbol)], sequence := e.sequence + 1),
              [Event(cmd.symbol, Rejected(cmd.orderId, "FOK_UNFILLABLE"))], [], NoFault)
    else
      Settle(e, cmd, Match(cmd, StartMatching(e, cmd)))
  }

  function RestRemainder(e: Engine, cmd: AddOrder, m: Matching): Outcome {
    var e1 := Rest(e, cmd, m.remaining);
    Outcome(e1.(sequence := e.sequence + 1),
            m.events + [Event(cmd.symbol, Rested(cmd.orderId, m.remaining))], m.trades,
            if Crossed(BookFor(e1, cmd.symbol)) then CrossedBook else NoFault)
  }

  /** What happens to the quantity that did not match. */
  function Settle(e: Engine, cmd: AddOrder, m: Matching): Outcome {
    var e1 := During(e, cmd, m).(sequence := e.sequence + |m.events|);
    if !m.Active() then
      Outcome(e1, m.events, m.trades, m.fault)
    else if cmd.tif == Gtc then
      RestRemainder(e1, cmd, m)
    else if cmd.tif == Fok then
      Outcome(e1, m.events, m.trades, NoFault)
    else
      Outcome(e1.(sequence := e1.sequence + 1),
              m.events + [Event(cmd.symbol, Cancelled(cmd.orderId, m.remaining, None))], m.trades, NoFault)
  }

  /** The order an index entry leads to, if its node is still in the list. */
  function Located(books: map<string, Book>, loc: Location): Option<RestingOrder> {
    Lookup(BookIn(books, loc.symbol).Of(loc.side), loc.node)
  }

  function Unknown(e: Engine, symbol: string, orderId: int): Outcome {
    Outcome(e.(sequence := e.sequence + 1), [Event(symbol, Rejected(orderId, "UNKNOWN_ORDER"))], [], NoFault)
  }

  function SpecCancel(e: Engine, cmd: CancelOrder): Outcome {
    if cmd.orderId !in e.index then Unknown(e, cmd.symbol, cmd.orderId) else
    var loc := e.index[cmd.orderId];
    var o := Located(e.books, loc);
    if o.None? then Outcome(e, [], [], DanglingIterator) else
    var e1 := SetSide(e, loc.symbol, loc.side, Remove(BookFor(e, loc.symbol).Of(loc.side), loc.node));
    Outcome(e1.(index := e.index - {cmd.orderId}, sequence := e.sequence + 1),
            [Event(cmd.symbol, Cancelled(cmd.orderId, o.value.remaining, None))], [], NoFault)
  }

  /** The order that takes the place of a cancelled one: same side and participant, new terms. */
  function Replacement(cmd: ReplaceOrder, participant: string, side: Side): AddOrder {
    AddOrder(cmd.symbol, cmd.newOrderId, participant, side, cmd.newPrice, cmd.newQuantity, cmd.tif, Allow)
  }

  function SpecReplace(e: Engine, cmd: ReplaceOrder): Outcome {
    if cmd.orderId !in e.index then Unknown(e, cmd.symbol, cmd.orderId) else
    var loc := e.index[cmd.orderId];
    var o := Located(e.books, loc);
    if o.None? then Outcome(e, [], [], DanglingIterator) else
    var first := SpecCancel(e, CancelOrder(cmd.symbol, cmd.orderId));
    var second := SpecAdd(first.engine, Replacement(cmd, o.value.participant, loc.side));
    second.(events := first.events + second.events)
  }

  function Step(e: Engine, command: Command): Outcome {
    match command
    case Add(c) => SpecAdd(e, c)
    case Cancel(c) => SpecCancel(e, c)
    case Replace(c) => SpecReplace(e, c)
  }

  /** Numbered events and trades, as a client sees them. */
  datatype Reply = Reply(events: seq<ExecEvent>, trades: seq<Trade>, fault: Fault)

  function ReplyTo(e: Engine, command: Command): Reply {
    var r := Step(e, command);
    Reply(Stamp(e.sequence, r.events), r.trades, r.fault)
  }

  function Run(e: Engine, commands: seq<Command>): Engine
    decreases |commands|
  {
    if commands == [] then e else Run(Step(e, commands[0]).engine, commands[1..])
  }

  function Replies(e: Engine, commands: seq<Command>): (r: seq<Reply>)
    ensures |r| == |commands|
    decreases |commands|
  {
    if commands == [] then []
    else [ReplyTo(e, commands[0])] + Replies(Step(e, commands[0]).engine, commands[1..])
  }
}
