/** The symbol-sharded engine (src/sharded.cpp, include/risk.hpp): routing, ingress
    numbers, pre-trade risk, logging before applying, snapshots and replay. */
module ShardedSpec {
  import opened Orders
  import opened EngineSpec
  import opened JsonValue
  import opened Snapshot
  import opened Wal

  // ---------------------------------------------------------------- routing

  function Mix(hash: bv64, c: char): bv64 {
    (hash ^ (((c as int % 256) as bv8) as bv64)) * 1099511628211
  }

  function HashFrom(hash: bv64, symbol: string): bv64
    decreases |symbol|
  {
    if symbol == [] then hash else HashFrom(Mix(hash, symbol[0]), symbol[1..])
  }

  const OFFSET_BASIS: bv64 := 1469598103934665603

  function ShardOf(symbol: string, shards: nat): (s: nat)
    requires shards > 0
    ensures s < shards
  {
    HashFrom(OFFSET_BASIS, symbol) as int % shards
  }

  // ---------------------------------------------------------------- risk

  datatype RiskLimits = RiskLimits(maxQuantity: int, minPrice: int, maxPrice: int, maxNotional: int)

  const DEFAULT_LIMITS := RiskLimits(1_000_000, 1, 10_000_000_000, 10_000_000_000_000)

  function CheckAdd(limits: RiskLimits, cmd: AddOrder): Option<string> {
    if cmd.quantity <= 0 then Some("RISK_QTY_NON_POSITIVE")
    else if cmd.quantity > limits.maxQuantity then Some("RISK_QTY_TOO_LARGE")
    else if cmd.tif == Market then None
    else if cmd.price < limits.minPrice || cmd.price > limits.maxPrice then Some("RISK_PRICE_OUT_OF_RANGE")
    else if cmd.price * cmd.quantity > limits.maxNotional then Some("RISK_NOTIONAL_EXCEEDED")
    else None
  }

  // ---------------------------------------------------------------- records

  function SideText(side: Side): string {
    if side == Buy then "BUY" else "SELL"
  }

  function TifText(tif: TimeInForce): string {
    match tif
    case Gtc => "GTC"
    case Ioc => "IOC"
    case Fok => "FOK"
    case Market => "MARKET"
  }

  function StpText(stp: SelfTradePrevention): string {
    match stp
    case Allow => "NONE"
    case CancelAggressor => "CANCEL_AGGRESSOR"
    case CancelPassive => "CANCEL_PASSIVE"
    case CancelBoth => "CANCEL_BOTH"
  }

  function TifFrom(text: string): TimeInForce {
    if text == "IOC" then Ioc else if text == "FOK" then Fok else if text == "MARKET" then Market else Gtc
  }

  function StpFrom(text: string): SelfTradePrevention {
    if text == "CANCEL_AGGRESSOR" then CancelAggressor
    else if text == "CANCEL_PASSIVE" then CancelPassive
    else if text == "CANCEL_BOTH" then CancelBoth
    else Allow
  }

  function AddMembers(c: AddOrder): seq<Member> {
    [Member("symbol", String(c.symbol)), Member("order_id", Int(c.orderId)),
     Member("participant_id", String(c.participant)), Member("side", String(SideText(c.side))),
     Member("price_ticks", Int(c.price)), Member("quantity", Int(c.quantity)),
     Member("time_in_force", String(TifText(c.tif))), Member("stp", String(StpText(c.stp)))]
  }

  function CancelMembers(c: CancelOrder): seq<Member> {
    [Member("symbol", String(c.symbol)), Member("order_id", Int(c.orderId))]
  }

  function ReplaceMembers(c: ReplaceOrder): seq<Member> {
    [Member("symbol", String(c.symbol)), Member("order_id", Int(c.orderId)),
     Member("new_order_id", Int(c.newOrderId)), Member("new_price_ticks", Int(c.newPrice)),
     Member("new_quantity", Int(c.newQuantity)), Member("time_in_force", String(TifText(c.tif)))]
  }

  function Tag(command: Command): string {
    match command
    case Add(_) => "add"
    case Cancel(_) => "cancel"
    case Replace(_) => "replace"
  }

  function CommandMembers(command: Command): seq<Member> {
    match command
    case Add(c) => AddMembers(c)
    case Cancel(c) => CancelMembers(c)
    case Replace(c) => ReplaceMembers(c)
  }

  /** What is logged before a command is applied. */
  function CommandRecord(command: Command): Json {
    Object([Member("type", String(Tag(command))), Member("command", Object(CommandMembers(command)))])
  }

  function RiskRecord(cmd: AddOrder, reason: string): Json {
    Object([Member("type", String("risk_reject")), Member("command", Object(AddMembers(cmd))),
            Member("reason", String(reason))])
  }

  datatype Decoded = Invalid | Ignored | Apply(command: Command)

  function StringAt(members: seq<Member>, key: string): string {
    var v := FindIn(members, key);
    if v.Some? then v.value.AsString() else ""
  }

  function IntAt(members: seq<Member>, key: string): int {
    var v := FindIn(members, key);
    if v.Some? then v.value.AsInt() else 0
  }

  /** What replay makes of a record; a risk reject, or any other type, is passed over. */
  function DecodeRecord(record: Json): Decoded {
    var kind, command := record.Find("type"), record.Find("command");
    if kind.None? || command.None? || !command.value.Object? then Invalid else
    var m, tag := command.value.members, kind.value.AsString();
    if tag == "add" then
      Apply(Add(AddOrder(StringAt(m, "symbol"), IntAt(m, "order_id"), StringAt(m, "participant_id"),
                         if StringAt(m, "side") == "BUY" then Buy else Sell, IntAt(m, "price_ticks"),
                         IntAt(m, "quantity"), TifFrom(StringAt(m, "time_in_force")), StpFrom(StringAt(m, "stp")))))
    else if tag == "cancel" then
      Apply(Cancel(CancelOrder(StringAt(m, "symbol"), IntAt(m, "order_id"))))
    else if tag == "replace" then
      Apply(Replace(ReplaceOrder(StringAt(m, "symbol"), IntAt(m, "order_id"), IntAt(m, "new_order_id"),
                                 IntAt(m, "new_price_ticks"), IntAt(m, "new_quantity"),
                                 TifFrom(StringAt(m, "time_in_force")))))
    else Ignored
  }

  /** None where replay raises an exception. */
  function ApplyRecords(e: Engine, records: seq<Json>): Option<Engine>
    decreases |records|
  {
    if records == [] then Some(e) else
    match DecodeRecord(records[0])
    case Invalid => None
    case Ignored => ApplyRecords(e, records[1..])
    case Apply(command) => ApplyRecords(Step(e, command).engine, records[1..])
  }

  // ---------------------------------------------------------------- one shard

  datatype Shard = Shard(engine: Engine, store: Store, lastIngress: int)

  const EMPTY_SHARD := Shard(EMPTY_ENGINE, EMPTY_STORE, 0)

  datatype Message = Message(command: Command, ingress: Option<int>)

  /** Numbered events and trades of one command. */
  datatype Response = Response(events: seq<ExecEvent>, trades: seq<Trade>)

  predicate Stale(sh: Shard, msg: Message) {
    msg.ingress.Some? && msg.ingress.value <= sh.lastIngress
  }

  function RiskReason(limits: RiskLimits, command: Command): Option<string> {
    if command.Add? then CheckAdd(limits, command.add) else None
  }

  /** Rejected before the matching core sees it. */
  predicate Refused(limits: RiskLimits, sh: Shard, msg: Message) {
    Stale(sh, msg) || RiskReason(limits, msg.command).Some?
  }

  function Rejection(command: Command, reason: string): Event {
    Event(SymbolOf(command), Rejected(OrderIdOf(command), reason))
  }

  function Noted(sh: Shard, msg: Message): Shard {
    if msg.ingress.Some? then sh.(lastIngress := msg.ingress.value) else sh
  }

  function Handle(limits: RiskLimits, sh: Shard, msg: Message): (Shard, Response) {
    var e, command := sh.engine, msg.command;
    if Stale(sh, msg) then
      (sh.(engine := e.(sequence := e.sequence + 1)),
       Response(Stamp(e.sequence, [Rejection(command, "OUT_OF_ORDER_INGRESS")]), []))
    else
      var sh1, reason := Noted(sh, msg), RiskReason(limits, command);
      if reason.Some? then
        (sh1.(engine := e.(sequence := e.sequence + 1), store := Append(sh.store, RiskRecord(command.add, reason.value))),
         Response(Stamp(e.sequence, [Rejection(command, reason.value)]), []))
      else
        var r := Step(e, command);
        (sh1.(engine := r.engine, store := Append(sh.store, CommandRecord(command))),
         Response(Stamp(e.sequence, r.events), r.trades))
  }

  /** The engine recovery starts from. */
  function Base(store: Store): Option<Engine> {
    match Load(store)
    case Absent => Some(EMPTY_ENGINE)
    case Unreadable => None
    case Document(j) => LoadJson(0, j)
  }

  /** Snapshot, then the log from there; None where recovery raises an exception. */
  function ReplayShard(store: Store): Option<Engine> {
    var base, records := Base(store), Replay(Flush(store).file);
    if base.None? || records.None? then None else ApplyRecords(base.value, records.value)
  }

  // ---------------------------------------------------------------- all shards

  function Start(shards: nat): (r: seq<Shard>)
    ensures |r| == shards
  {
    seq(shards, _ => EMPTY_SHARD)
  }

  function Submit(limits: RiskLimits, shards: seq<Shard>, msg: Message): (r: (seq<Shard>, Response))
    requires shards != []
    ensures |r.0| == |shards|
  {
    var s := ShardOf(SymbolOf(msg.command), |shards|);
    var (sh, response) := Handle(limits, shards[s], msg);
    (shards[s := sh], response)
  }

  /** `names[i]` is the order in which shard `i` visits its books. */
  ghost predicate NamesOk(shards: seq<Shard>, names: seq<seq<string>>) {
    |names| == |shards| && forall i :: 0 <= i < |shards| ==> Enumerates(names[i], shards[i].engine.books)
  }

  function SaveShard(sh: Shard, names: seq<string>): Shard
    requires Enumerates(names, sh.engine.books)
  {
    sh.(store := Save(sh.store, SnapshotJson(sh.engine, names)))
  }

  function SnapshotAll(shards: seq<Shard>, names: seq<seq<string>>): (r: seq<Shard>)
    requires NamesOk(shards, names)
    ensures |r| == |shards|
  {
    seq(|shards|, i requires 0 <= i < |shards| => SaveShard(shards[i], names[i]))
  }
}
