/** The number of shards does not show: an n-shard engine answers each command with
    the trades and event payloads of a 1-shard engine, only numbered differently. */
module ShardCount {
  import opened Orders
  import opened EngineSpec
  import opened EngineInvariants
  import opened MatchingLaws
  import opened IndexLaws
  import opened Simulation
  import opened Wal
  import opened ShardedSpec

  // ---------------------------------------------------------------- a command stays within its symbol

  /** Apart from `symbol`, engine `b` is engine `a`. */
  ghost predicate OnlyTouches(symbol: string, a: Engine, b: Engine) {
    && a.nextNode <= b.nextNode
    && (forall s :: s != symbol ==> (s in b.books <==> s in a.books) && (s in a.books ==> b.books[s] == a.books[s]))
    && (forall id :: id in a.index && a.index[id].symbol != symbol ==> id in b.index && b.index[id] == a.index[id])
    && (forall id :: id in b.index && b.index[id].symbol != symbol ==> id in a.index && b.index[id] == a.index[id])
  }

  lemma {:induction false} TouchesBoth(symbol: string, a: Engine, b: Engine, c: Engine)
    requires OnlyTouches(symbol, a, b) && OnlyTouches(symbol, b, c)
    ensures OnlyTouches(symbol, a, c)
  {
  }

  /** The ids that matching takes out of the index belong to its own book. */
  lemma {:induction false} MatchTouches(e: Engine, cmd: AddOrder)
    requires WellFormed(e) && Indexed(e)
    ensures OnlyTouches(cmd.symbol, e, During(e, cmd, Match(cmd, StartMatching(e, cmd))))
  {
    hide WellFormed, Match, Tradable, TradesFor, After, WalkEvents, Supply, Reachable, Own, LeftOver, Stops;
    var m := StartMatching(e, cmd);
    StartTradable(e, cmd);
    BookForIndexed(e, cmd.symbol);
    var k, cut, stopped := PriorityWalk(cmd, m);
    forall id | id in Ids(m.opposite[..k])
      ensures id in e.index && e.index[id].symbol == cmd.symbol
    {
      var o :| o in m.opposite[..k] && o.orderId == id;
    }
  }

  lemma {:induction false} RestTouches(e: Engine, cmd: AddOrder, remaining: int)
    requires cmd.orderId in e.index ==> e.index[cmd.orderId].symbol == cmd.symbol
    ensures OnlyTouches(cmd.symbol, e, Rest(e, cmd, remaining))
  {
    hide Insert;
  }

  lemma {:induction false} TouchesAnyway(symbol: string, a: Engine, b: Engine, c: Engine)
    requires OnlyTouches(symbol, a, b) && c == b.(sequence := c.sequence)
    ensures OnlyTouches(symbol, a, c)
  {
  }

  lemma {:induction false} SettleTouches(e: Engine, cmd: AddOrder, m: Matching)
    requires OnlyTouches(cmd.symbol, e, During(e, cmd, m))
    requires cmd.orderId in m.index ==> m.index[cmd.orderId].symbol == cmd.symbol
    ensures OnlyTouches(cmd.symbol, e, Settle(e, cmd, m).engine)
  {
    hide OnlyTouches, Rest;
    var e1 := During(e, cmd, m).(sequence := e.sequence + |m.events|);
    var r := Settle(e, cmd, m).engine;
    TouchesAnyway(cmd.symbol, e, During(e, cmd, m), e1);
    if m.Active() && cmd.tif == Gtc {
      RestTouches(e1, cmd, m.remaining);
      TouchesBoth(cmd.symbol, e, e1, Rest(e1, cmd, m.remaining));
      TouchesAnyway(cmd.symbol, e, Rest(e1, cmd, m.remaining), r);
    } else {
      TouchesAnyway(cmd.symbol, e, e1, r);
    }
  }

  lemma {:induction false} AddTouches(e: Engine, cmd: AddOrder)
    requires WellFormed(e) && Indexed(e) && cmd.orderId !in e.index
    ensures OnlyTouches(cmd.symbol, e, SpecAdd(e, cmd).engine)
  {
    hide WellFormed, Indexed, Match, Settle, FokRejected;
    if !FokRejected(e, cmd) {
      MatchTouches(e, cmd);
      MatchIndexed(e, cmd);
      assert cmd.orderId !in Match(cmd, StartMatching(e, cmd)).index.Keys;
      SettleTouches(e, cmd, Match(cmd, StartMatching(e, cmd)));
    }
  }

  lemma {:induction false} CancelTouches(e: Engine, cmd: CancelOrder)
    requires cmd.orderId in e.index ==> e.index[cmd.orderId].symbol == cmd.symbol
    ensures OnlyTouches(cmd.symbol, e, SpecCancel(e, cmd).engine)
  {
    hide Lookup, Remove;
  }

  /** Cancel and replace name the order's own symbol. */
  predicate OwnSymbol(e: Engine, command: Command) {
    !command.Add? && OrderIdOf(command) in e.index ==> e.index[OrderIdOf(command)].symbol == SymbolOf(command)
  }

  lemma {:induction false} StepTouches(e: Engine, command: Command)
    requires WellFormed(e) && Indexed(e) && Fresh(e, command) && OwnSymbol(e, command)
    ensures OnlyTouches(SymbolOf(command), e, Step(e, command).engine)
  {
    hide WellFormed, Indexed, OnlyTouches, SpecAdd, Located;
    match command
    case Add(c) => AddTouches(e, c);
    case Cancel(c) => CancelTouches(e, c);
    case Replace(c) =>
      var cancel := CancelOrder(c.symbol, c.orderId);
      var e1 := SpecCancel(e, cancel).engine;
      CancelTouches(e, cancel);
      CancelOk(e, cancel);
      CancelIndexed(e, cancel);
      if c.orderId in e.index {
        var loc := e.index[c.orderId];
        var k := Pointed(e, c.orderId);
        var add := Replacement(c, Located(e.books, loc).value.participant, loc.side);
        AddTouches(e1, add);
        TouchesBoth(c.symbol, e, e1, SpecAdd(e1, add).engine);
      }
  }

  /** A part that does not select the symbol is not affected. */
  lemma {:induction false} OthersUntouched(p: Selection, f: Renaming, a: Engine, a1: Engine, b: Engine, symbol: string)
    requires Mirrors(p, f, a, b) && OnlyTouches(symbol, a, a1) && !p(symbol)
    ensures Mirrors(p, f, a1, b)
  {
    hide SameBook, SameLocation, Injective;
  }

  // ---------------------------------------------------------------- one shard against many

  ghost function Routed(n: nat, i: nat): Selection
    requires n > 0
  {
    s => ShardOf(s, n) == i
  }

  /** Every shard holds its part of the one big engine, and none is ahead of it in ingress numbers. */
  ghost predicate Split(one: Shard, many: seq<Shard>, fs: seq<Renaming>) {
    && |fs| == |many| > 0
    && forall i :: 0 <= i < |many| ==>
         Mirrors(Routed(|many|, i), fs[i], one.engine, many[i].engine) && many[i].lastIngress <= one.lastIngress
  }

  /** What is asked of a command: a fresh id, the order's own symbol, and an ingress
      number, if any, above all earlier ones. */
  predicate Orderly(limits: RiskLimits, one: Shard, msg: Message) {
    && !Stale(one, msg)
    && (RiskReason(limits, msg.command).None? ==> Fresh(one.engine, msg.command) && OwnSymbol(one.engine, msg.command))
  }

  /** Equal but for the numbering of events. */
  ghost predicate SamePayload(a: Response, b: Response) {
    && a.trades == b.trades && |a.events| == |b.events|
    && forall i :: 0 <= i < |a.events| ==> a.events[i].event == b.events[i].event
  }

  lemma {:induction false} HandleSplit(limits: RiskLimits, one: Shard, many: seq<Shard>, fs: seq<Renaming>, msg: Message)
      returns (f: Renaming)
    requires Split(one, many, fs) && WellFormed(one.engine) && Indexed(one.engine) && Orderly(limits, one, msg)
    ensures var s := ShardOf(SymbolOf(msg.command), |many|);
            var (one1, r) := Handle(limits, one, msg);
            var (sh1, r1) := Handle(limits, many[s], msg);
            && SamePayload(r, r1)
            && Mirrors(Routed(|many|, s), f, one1.engine, sh1.engine)
            && sh1.lastIngress <= one1.lastIngress
  {
    hide WellFormed, Indexed, Mirrors, Step, Append, CheckAdd, Fresh, ShardOf;
    var s := ShardOf(SymbolOf(msg.command), |many|);
    var p, a, b := Routed(|many|, s), one.engine, many[s].engine;
    assert !Stale(many[s], msg);
    f := fs[s];
    if RiskReason(limits, msg.command).Some? {
      Renumber(p, f, a, b, a.sequence + 1, b.sequence + 1);
    } else {
      assert p(SymbolOf(msg.command));
      assert Addressed(p, a, msg.command);
      f := StepSame(p, f, a, b, msg.command);
    }
  }

  lemma {:induction false} HandleTouches(limits: RiskLimits, one: Shard, msg: Message)
    requires WellFormed(one.engine) && Indexed(one.engine) && Orderly(limits, one, msg)
    ensures var one1 := Handle(limits, one, msg).0;
            && OnlyTouches(SymbolOf(msg.command), one.engine, one1.engine)
            && WellFormed(one1.engine) && Indexed(one1.engine)
            && one.lastIngress <= one1.lastIngress
  {
    hide WellFormed, BookIndexed, OnlyTouches, Step, Append, CheckAdd, Fresh;
    var e := one.engine;
    if RiskReason(limits, msg.command).Some? {
      Renumbered(e, e.(sequence := e.sequence + 1));
      TouchesItself(SymbolOf(msg.command), e);
      TouchesAnyway(SymbolOf(msg.command), e, e, e.(sequence := e.sequence + 1));
    } else {
      StepTouches(e, msg.command);
      StepOk(e, msg.command);
      StepIndexed(e, msg.command);
    }
  }

  lemma {:induction false} TouchesItself(symbol: string, e: Engine)
    ensures OnlyTouches(symbol, e, e)
  {
  }

  lemma {:induction false} SubmitSplit(limits: RiskLimits, one: Shard, many: seq<Shard>, fs: seq<Renaming>, msg: Message)
      returns (fs1: seq<Renaming>)
    requires Split(one, many, fs) && WellFormed(one.engine) && Indexed(one.engine) && Orderly(limits, one, msg)
    ensures Split(Handle(limits, one, msg).0, Submit(limits, many, msg).0, fs1)
    ensures SamePayload(Handle(limits, one, msg).1, Submit(limits, many, msg).1)
  {
    hide WellFormed, Indexed, Mirrors, Handle, ShardOf, OnlyTouches, Orderly, SamePayload;
    var s := ShardOf(SymbolOf(msg.command), |many|);
    var f := HandleSplit(limits, one, many, fs, msg);
    HandleTouches(limits, one, msg);
    fs1 := fs[s := f];
    var one1, many1 := Handle(limits, one, msg).0, Submit(limits, many, msg).0;
    forall i | 0 <= i < |many|
      ensures Mirrors(Routed(|many|, i), fs1[i], one1.engine, many1[i].engine) && many1[i].lastIngress <= one1.lastIngress
    {
      if i != s {
        OthersUntouched(Routed(|many|, i), fs[i], one.engine, one1.engine, many[i].engine, SymbolOf(msg.command));
      }
    }
  }

  // ---------------------------------------------------------------- whole runs

  predicate OrderlyRun(limits: RiskLimits, one: Shard, msgs: seq<Message>)
    decreases |msgs|
  {
    msgs == [] || (Orderly(limits, one, msgs[0]) && OrderlyRun(limits, Handle(limits, one, msgs[0]).0, msgs[1..]))
  }

  /** The answers of a sharded engine to a sequence of messages. */
  function Responses(limits: RiskLimits, shards: seq<Shard>, msgs: seq<Message>): (r: seq<Response>)
    requires shards != []
    ensures |r| == |msgs|
    decreases |msgs|
  {
    if msgs == [] then [] else
    var (shards1, response) := Submit(limits, shards, msgs[0]);
    [response] + Responses(limits, shards1, msgs[1..])
  }

  lemma {:induction false} ResponsesStep(limits: RiskLimits, shards: seq<Shard>, msgs: seq<Message>)
    requires shards != [] && msgs != []
    ensures Responses(limits, shards, msgs)[0] == Submit(limits, shards, msgs[0]).1
    ensures forall k :: 0 < k < |msgs| ==>
              Responses(limits, shards, msgs)[k] ==
              Responses(limits, Submit(limits, shards, msgs[0]).0, msgs[1..])[k - 1]
  {
    hide Handle;
  }

  lemma {:induction false} RunSplit(limits: RiskLimits, one: Shard, many: seq<Shard>, fs: seq<Renaming>, msgs: seq<Message>)
    requires many != [] && Split(one, many, fs) && WellFormed(one.engine) && Indexed(one.engine) && OrderlyRun(limits, one, msgs)
    ensures forall k :: 0 <= k < |msgs| ==>
              SamePayload(Responses(limits, [one], msgs)[k], Responses(limits, many, msgs)[k])
    decreases |msgs|
  {
    hide WellFormed, Indexed, Split, Handle, Orderly, SamePayload, Submit, Responses;
    if msgs != [] {
      var fs1 := SubmitSplit(limits, one, many, fs, msgs[0]);
      HandleTouches(limits, one, msgs[0]);
      OneShard(limits, one, msgs[0]);
      RunSplit(limits, Handle(limits, one, msgs[0]).0, Submit(limits, many, msgs[0]).0, fs1, msgs[1..]);
      assert [one] != [];
      ResponsesStep(limits, [one], msgs);
      ResponsesStep(limits, many, msgs);
      forall k | 0 <= k < |msgs|
        ensures SamePayload(Responses(limits, [one], msgs)[k], Responses(limits, many, msgs)[k])
      {
        if k > 0 {
          assert SamePayload(Responses(limits, Submit(limits, [one], msgs[0]).0, msgs[1..])[k - 1],
                             Responses(limits, Submit(limits, many, msgs[0]).0, msgs[1..])[k - 1]);
        }
      }
    }
  }

  lemma {:induction false} OneShard(limits: RiskLimits, one: Shard, msg: Message)
    ensures Submit(limits, [one], msg) == ([Handle(limits, one, msg).0], Handle(limits, one, msg).1)
  {
    hide Handle, ShardOf;
    assert ShardOf(SymbolOf(msg.command), 1) == 0;
    assert [one][0 := Handle(limits, one, msg).0] == [Handle(limits, one, msg).0];
  }

  lemma {:induction false} StartSplit(n: nat) returns (fs: seq<Renaming>)
    requires n > 0
    ensures Split(EMPTY_SHARD, Start(n), fs)
  {
    fs := seq(n, _ => map[]);
  }

  /** For every number of shards and every orderly run, command by command: the same
      trades and the same events, apart from their numbers. */
  lemma {:induction false} ShardCountInvisible(limits: RiskLimits, n: nat, msgs: seq<Message>)
    requires n > 0 && OrderlyRun(limits, EMPTY_SHARD, msgs)
    ensures forall k :: 0 <= k < |msgs| ==>
              SamePayload(Responses(limits, Start(1), msgs)[k], Responses(limits, Start(n), msgs)[k])
  {
    hide Responses, Handle, SamePayload, OrderlyRun;
    var fs := StartSplit(n);
    assert Start(1) == [EMPTY_SHARD];
    RunSplit(limits, EMPTY_SHARD, Start(n), fs, msgs);
  }
}
