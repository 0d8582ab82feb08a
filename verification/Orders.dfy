/** The records that travel through the system (include/types.hpp,
    include/matching_engine.hpp).  A C++ string is a `string` whose characters
    are its bytes; prices, quantities and ids are mathematical integers. */
module Orders {

  datatype Option<+T> = None | Some(value: T)

  datatype Side = Buy | Sell

  function Opposite(side: Side): Side {
    if side == Buy then Sell else Buy
  }

  datatype TimeInForce = Gtc | Ioc | Fok | Market

  datatype SelfTradePrevention = Allow | CancelAggressor | CancelPassive | CancelBoth

  datatype AddOrder = AddOrder(
    symbol: string, orderId: int, participant: string, side: Side,
    price: int, quantity: int, tif: TimeInForce, stp: SelfTradePrevention)

  datatype CancelOrder = CancelOrder(symbol: string, orderId: int)

  datatype ReplaceOrder = ReplaceOrder(
    symbol: string, orderId: int, newOrderId: int, newPrice: int, newQuantity: int,
    tif: TimeInForce)

  datatype Command = Add(add: AddOrder) | Cancel(cancel: CancelOrder) | Replace(replace: ReplaceOrder)

  function SymbolOf(command: Command): string {
    match command
    case Add(c) => c.symbol
    case Cancel(c) => c.symbol
    case Replace(c) => c.symbol
  }

  function OrderIdOf(command: Command): int {
    match command
    case Add(c) => c.orderId
    case Cancel(c) => c.orderId
    case Replace(c) => c.orderId
  }

  /** An order on the book.  `node` names the list node that holds it: two
      orders may share an id, but never a live list node. */
  datatype RestingOrder = RestingOrder(
    symbol: string, orderId: int, participant: string, side: Side,
    price: int, remaining: int, entered: int, node: nat)

  /** Where the index believes an order is: the list iterator is its node. */
  datatype Location = Location(symbol: string, side: Side, price: int, node: nat)

  datatype Trade = Trade(
    symbol: string, price: int, quantity: int,
    buyerOrderId: int, sellerOrderId: int, buyer: string, seller: string,
    passiveOrderId: int, aggressiveOrderId: int)

  datatype Payload =
    | Accepted(orderId: int, quantity: int)
    | Executed(aggressive: int, passive: int, price: int, quantity: int)
    | Rested(orderId: int, remaining: int)
    | Cancelled(orderId: int, remaining: int, cause: Option<string>)
    | Rejected(orderId: int, reason: string)

  /** What an event says, before the engine numbers it. */
  datatype Event = Event(symbol: string, payload: Payload)

  datatype ExecEvent = ExecEvent(sequence: int, event: Event)

  const STP_REASON := "SELF_TRADE_PREVENTION"

  /** Numbers consecutive events, the first one following `sequence`. */
  function Stamp(sequence: int, events: seq<Event>): (stamped: seq<ExecEvent>)
    ensures |stamped| == |events|
    ensures forall i :: 0 <= i < |events| ==> stamped[i] == ExecEvent(sequence + 1 + i, events[i])
  {
    seq(|events|, i requires 0 <= i < |events| => ExecEvent(sequence + 1 + i, events[i]))
  }

  /** The exceptions the engine can raise, plus the dereference of a list
      iterator whose node is gone. */
  datatype Fault = NoFault | NonPositiveFill | PassiveOverfill | SymbolMismatch | CrossedBook | DanglingIterator

  const MIN_INT := -0x8000_0000_0000_0000
  const MAX_INT := 0x7fff_ffff_ffff_ffff

  predicate Fits64(n: int) {
    MIN_INT <= n <= MAX_INT
  }

  /** The numbers of a command are 64-bit integers, as its type says. */
  predicate CommandFits(command: Command) {
    match command
    case Add(c) => Fits64(c.orderId) && Fits64(c.price) && Fits64(c.quantity)
    case Cancel(c) => Fits64(c.orderId)
    case Replace(c) => Fits64(c.orderId) && Fits64(c.newOrderId) && Fits64(c.newPrice) && Fits64(c.newQuantity)
  }
}
