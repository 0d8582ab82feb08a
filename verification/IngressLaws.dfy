/** What stands before the matching core: routing by symbol, ingress numbers that
    rise strictly, so that no numbered command is applied twice or out of order,
    and the pre-trade limits. */
module IngressLaws {
  import opened Orders
  import opened EngineSpec
  import opened Wal
  import opened ShardedSpec

  // ---------------------------------------------------------------- routing

  function Folded(hash: bv64, c: char): bv64 {
    (hash ^ (((c as int % 256) as bv8) as bv64)) * 1099511628211
  }

  /** The hash of a symbol: its last byte folded into the hash of the rest, on 64 bits. */
  function SymbolHash(symbol: string): bv64 {
    if symbol == [] then 1469598103934665603 else Folded(SymbolHash(symbol[..|symbol| - 1]), symbol[|symbol| - 1])
  }

  lemma {:induction false} MixFolds(hash: bv64, c: char)
    ensures Mix(hash, c) == Folded(hash, c)
  {
  }

  lemma {:induction false} HashOneMore(hash: bv64, symbol: string, c: char)
    ensures HashFrom(hash, symbol + [c]) == Mix(HashFrom(hash, symbol), c)
    decreases |symbol|
  {
    hide Mix;
    if symbol == [] {
      assert symbol + [c] == [c] && [c][1..] == [];
    } else {
      assert (symbol + [c])[1..] == symbol[1..] + [c];
      HashOneMore(Mix(hash, symbol[0]), symbol[1..], c);
    }
  }

  lemma {:induction false} HashIs(symbol: string)
    ensures HashFrom(OFFSET_BASIS, symbol) == SymbolHash(symbol)
    decreases |symbol|
  {
    hide Mix, Folded;
    if symbol != [] {
      var init, last := symbol[..|symbol| - 1], symbol[|symbol| - 1];
      assert symbol == init + [last];
      HashOneMore(OFFSET_BASIS, init, last);
      HashIs(init);
      MixFolds(SymbolHash(init), last);
    }
  }

  lemma {:induction false} RoutedByHash(symbol: string, shards: nat)
    requires shards > 0
    ensures ShardOf(symbol, shards) == SymbolHash(symbol) as int % shards
  {
    hide SymbolHash, HashFrom;
    HashIs(symbol);
  }

  // ---------------------------------------------------------------- what reaches the matching core

  predicate WithinLimits(limits: RiskLimits, cmd: AddOrder) {
    && 0 < cmd.quantity <= limits.maxQuantity
    && (cmd.tif == Market
        || (limits.minPrice <= cmd.price <= limits.maxPrice && cmd.price * cmd.quantity <= limits.maxNotional))
  }

  /** Why an order is refused: quantity before price, price before notional, and no
      price limits for a market order. */
  predicate Breaks(limits: RiskLimits, cmd: AddOrder, reason: string) {
    || (reason == "RISK_QTY_NON_POSITIVE" && cmd.quantity <= 0)
    || (reason == "RISK_QTY_TOO_LARGE" && 0 < cmd.quantity && limits.maxQuantity < cmd.quantity)
    || (&& 0 < cmd.quantity <= limits.maxQuantity && cmd.tif != Market
        && if limits.minPrice <= cmd.price <= limits.maxPrice
           then reason == "RISK_NOTIONAL_EXCEEDED" && cmd.price * cmd.quantity > limits.maxNotional
           else reason == "RISK_PRICE_OUT_OF_RANGE")
  }

  /** One rejection is answered, the event number is spent, and nothing else of the engine changes. */
  predicate TurnedDown(before: Engine, after: Engine, response: Response, symbol: string, id: int, reason: string) {
    && after == before.(sequence := before.sequence + 1)
    && response == Response([ExecEvent(before.sequence + 1, Event(symbol, Rejected(id, reason)))], [])
  }

  /** The command is logged and the matching core answers. */
  predicate Applied(before: Shard, after: Shard, response: Response, command: Command) {
    var r := Step(before.engine, command);
    && after.engine == r.engine && after.store == Append(before.store, CommandRecord(command))
    && response.trades == r.trades && |response.events| == |r.events|
    && forall i :: 0 <= i < |r.events| ==>
         response.events[i] == ExecEvent(before.engine.sequence + 1 + i, r.events[i])
  }

  predicate OnTime(sh: Shard, ingress: Option<int>) {
    ingress.Some? ==> ingress.value > sh.lastIngress
  }

  function LastSeen(sh: Shard, ingress: Option<int>): int {
    if ingress.Some? then ingress.value else sh.lastIngress
  }

  /** Only the shard that the symbol's hash names is touched. */
  ghost predicate OnlyRouted(before: seq<Shard>, after: seq<Shard>, symbol: string, s: nat)
    requires before != []
  {
    s == SymbolHash(symbol) as int % |before| && |after| == |before|
    && forall i :: 0 <= i < |before| && i != s ==> after[i] == before[i]
  }

  /** An add reaches the matching core exactly when it is on time and within the
      limits; otherwise it is answered by one rejection that names the reason. */
  lemma {:induction false} AddSubmitted(limits: RiskLimits, shards: seq<Shard>, cmd: AddOrder, ingress: Option<int>) returns (s: nat)
    requires shards != []
    ensures var (after, response) := Submit(limits, shards, Message(Add(cmd), ingress));
            && OnlyRouted(shards, after, cmd.symbol, s)
            && if !OnTime(shards[s], ingress) then
                 && TurnedDown(shards[s].engine, after[s].engine, response, cmd.symbol, cmd.orderId, "OUT_OF_ORDER_INGRESS")
                 && after[s].store == shards[s].store && after[s].lastIngress == shards[s].lastIngress
               else
                 && after[s].lastIngress == LastSeen(shards[s], ingress)
                 && if WithinLimits(limits, cmd) then Applied(shards[s], after[s], response, Add(cmd))
                    else exists reason ::
                           && Breaks(limits, cmd, reason)
                           && TurnedDown(shards[s].engine, after[s].engine, response, cmd.symbol, cmd.orderId, reason)
                           && after[s].store == Append(shards[s].store, RiskRecord(cmd, reason))
  {
    hide Step, CommandRecord, RiskRecord, Append, SymbolHash, HashFrom;
    RoutedByHash(cmd.symbol, |shards|);
    s := ShardOf(cmd.symbol, |shards|);
    var sh, msg := shards[s], Message(Add(cmd), ingress);
    var (after, response) := Submit(limits, shards, msg);
    if OnTime(sh, ingress) && !WithinLimits(limits, cmd) {
      var reason := CheckAdd(limits, cmd).value;
      assert Breaks(limits, cmd, reason);
      assert TurnedDown(sh.engine, after[s].engine, response, cmd.symbol, cmd.orderId, reason);
    }
  }

  /** Cancels and replacements are held to their ingress number only. */
  lemma {:induction false} CancelSubmitted(limits: RiskLimits, shards: seq<Shard>, cmd: CancelOrder, ingress: Option<int>) returns (s: nat)
    requires shards != []
    ensures var (after, response) := Submit(limits, shards, Message(Cancel(cmd), ingress));
            && OnlyRouted(shards, after, cmd.symbol, s)
            && if OnTime(shards[s], ingress) then
                 Applied(shards[s], after[s], response, Cancel(cmd)) && after[s].lastIngress == LastSeen(shards[s], ingress)
               else
                 && TurnedDown(shards[s].engine, after[s].engine, response, cmd.symbol, cmd.orderId, "OUT_OF_ORDER_INGRESS")
                 && after[s].store == shards[s].store && after[s].lastIngress == shards[s].lastIngress
  {
    hide Step, CommandRecord, RiskRecord, Append, SymbolHash, HashFrom;
    RoutedByHash(cmd.symbol, |shards|);
    s := ShardOf(cmd.symbol, |shards|);
  }

  lemma {:induction false} ReplaceSubmitted(limits: RiskLimits, shards: seq<Shard>, cmd: ReplaceOrder, ingress: Option<int>) returns (s: nat)
    requires shards != []
    ensures var (after, response) := Submit(limits, shards, Message(Replace(cmd), ingress));
            && OnlyRouted(shards, after, cmd.symbol, s)
            && if OnTime(shards[s], ingress) then
                 Applied(shards[s], after[s], response, Replace(cmd)) && after[s].lastIngress == LastSeen(shards[s], ingress)
               else
                 && TurnedDown(shards[s].engine, after[s].engine, response, cmd.symbol, cmd.orderId, "OUT_OF_ORDER_INGRESS")
                 && after[s].store == shards[s].store && after[s].lastIngress == shards[s].lastIngress
  {
    hide Step, CommandRecord, RiskRecord, Append, SymbolHash, HashFrom;
    RoutedByHash(cmd.symbol, |shards|);
    s := ShardOf(cmd.symbol, |shards|);
  }

  /** The limits of an engine that is given none: an order that is on time reaches the
      matching core exactly when these numbers allow it. */
  lemma {:induction false} DefaultLimitsAdmit(shards: seq<Shard>, cmd: AddOrder, ingress: Option<int>) returns (s: nat)
    requires shards != []
    ensures var (after, response) := Submit(DEFAULT_LIMITS, shards, Message(Add(cmd), ingress));
            && OnlyRouted(shards, after, cmd.symbol, s)
            && (OnTime(shards[s], ingress) ==>
                  if 0 < cmd.quantity <= 1_000_000
                     && (cmd.tif == Market
                         || (1 <= cmd.price <= 10_000_000_000 && cmd.price * cmd.quantity <= 10_000_000_000_000))
                  then Applied(shards[s], after[s], response, Add(cmd))
                  else exists reason ::
                         TurnedDown(shards[s].engine, after[s].engine, response, cmd.symbol, cmd.orderId, reason))
  {
    hide Submit, Applied, TurnedDown, OnlyRouted, Breaks;
    s := AddSubmitted(DEFAULT_LIMITS, shards, cmd, ingress);
    assert WithinLimits(DEFAULT_LIMITS, cmd) <==>
           0 < cmd.quantity <= 1_000_000
           && (cmd.tif == Market
               || (1 <= cmd.price <= 10_000_000_000 && cmd.price * cmd.quantity <= 10_000_000_000_000));
  }

  // ---------------------------------------------------------------- ingress numbers

  /** The ingress numbers of the numbered messages a shard lets through. */
  function Admitted(limits: RiskLimits, sh: Shard, msgs: seq<Message>): seq<int>
    decreases |msgs|
  {
    if msgs == [] then [] else
    (if msgs[0].ingress.Some? && !Stale(sh, msgs[0]) then [msgs[0].ingress.value] else [])
    + Admitted(limits, Handle(limits, sh, msgs[0]).0, msgs[1..])
  }

  predicate RisesAbove(floor: int, numbers: seq<int>) {
    && (forall i :: 0 <= i < |numbers| ==> numbers[i] > floor)
    && (forall i, j :: 0 <= i < j < |numbers| ==> numbers[i] < numbers[j])
  }

  lemma {:induction false} HandleNotes(limits: RiskLimits, sh: Shard, msg: Message)
    ensures Handle(limits, sh, msg).0.lastIngress ==
            if msg.ingress.Some? && msg.ingress.value > sh.lastIngress then msg.ingress.value else sh.lastIngress
  {
    hide Step, CheckAdd, CommandRecord, RiskRecord;
  }

  lemma {:induction false} RisesFirst(floor: int, n: int, numbers: seq<int>)
    requires n > floor && RisesAbove(n, numbers)
    ensures RisesAbove(floor, [n] + numbers)
  {
  }

  /** On every run, whatever arrives, in whatever order. */
  lemma {:induction false} AdmittedRises(limits: RiskLimits, sh: Shard, msgs: seq<Message>)
    ensures RisesAbove(sh.lastIngress, Admitted(limits, sh, msgs))
    decreases |msgs|
  {
    hide Handle;
    if msgs != [] {
      var sh1 := Handle(limits, sh, msgs[0]).0;
      HandleNotes(limits, sh, msgs[0]);
      AdmittedRises(limits, sh1, msgs[1..]);
      var rest := Admitted(limits, sh1, msgs[1..]);
      if msgs[0].ingress.Some? && !Stale(sh, msgs[0]) {
        RisesFirst(sh.lastIngress, msgs[0].ingress.value, rest);
      } else {
        assert [] + rest == rest;
      }
    }
  }

  /** A fresh shard counts from one: it lets through no number below, and one itself first. */
  lemma {:induction false} IngressFromOne(limits: RiskLimits, shards: nat, msgs: seq<Message>, command: Command)
    requires shards > 0
    ensures var first := Start(shards)[ShardOf(SymbolOf(command), shards)];
            && RisesAbove(0, Admitted(limits, first, msgs))
            && Admitted(limits, first, [Message(command, Some(1))]) == [1]
  {
    hide Handle, ShardOf;
    AdmittedRises(limits, EMPTY_SHARD, msgs);
    var one := [Message(command, Some(1))];
    assert one[1..] == [];
  }
}
