/** The symbol-sharded engine as an object: one matching engine, one log and one
    ingress counter per shard, changed in place. */
module ShardedEngineImpl {
  import opened Orders
  import opened EngineSpec
  import opened EngineInvariants
  import opened JsonValue
  import opened Snapshot
  import opened Wal
  import opened WalStoreImpl
  import opened MatchingEngineImpl
  import opened ShardedSpec

  class ShardedMatchingEngine {
    const limits: RiskLimits
    var engines: seq<MatchingEngine>
    var wals: seq<WalStore>
    var lastIngress: seq<int>
    /** What the shards hold, as values. */
    ghost var shards: seq<Shard>

    /** No two shards share an engine or a log. */
    ghost predicate Apart()
      reads this
    {
      && |engines| == |wals| == |lastIngress| == |shards| > 0
      && (forall i, j :: 0 <= i < j < |engines| ==> engines[i] != engines[j])
      && (forall i, j :: 0 <= i < j < |wals| ==> wals[i] != wals[j])
    }

    ghost predicate Agrees(i: nat)
      requires Apart() && i < |engines|
      reads this, engines[i], wals[i]
    {
      engines[i].Valid() && shards[i] == Shard(engines[i].Abs(), wals[i].Abs(), lastIngress[i])
    }

    ghost predicate Valid()
      reads this, engines, wals
    {
      Apart() && forall i :: 0 <= i < |engines| ==> Agrees(i)
    }

    constructor (shardCount: nat, limits: RiskLimits)
      requires shardCount > 0
      ensures Valid() && fresh(engines) && fresh(wals)
      ensures this.limits == limits && shards == Start(shardCount)
    {
      this.limits := limits;
      engines, wals, lastIngress := [], [], [];
      shards := Start(shardCount);
      new;
      var es: seq<MatchingEngine>, ws: seq<WalStore>, i := [], [], 0;
      while i < shardCount
        invariant |es| == |ws| == i <= shardCount
        invariant fresh(es) && fresh(ws)
        invariant forall j, k :: 0 <= j < k < i ==> es[j] != es[k]
        invariant forall j, k :: 0 <= j < k < i ==> ws[j] != ws[k]
        invariant forall j :: 0 <= j < i ==> es[j].Valid() && es[j].Abs() == EMPTY_ENGINE && ws[j].Abs() == EMPTY_STORE
        modifies {}
      {
        hide WellFormed;
        var e := new MatchingEngine();
        var w := new WalStore();
        es, ws, i := es + [e], ws + [w], i + 1;
      }
      engines, wals, lastIngress := es, ws, seq(shardCount, _ => 0);
    }

    /** Null where the source raises an exception. */
    static method Create(shardCount: int, limits: RiskLimits) returns (engine: ShardedMatchingEngine?)
      ensures engine == null <==> shardCount <= 0
      ensures engine != null ==>
                && fresh(engine) && fresh(engine.engines) && fresh(engine.wals) && engine.Valid()
                && engine.limits == limits && engine.shards == Start(shardCount)
    {
      hide WellFormed;
      if shardCount <= 0 {
        return null;
      }
      engine := new ShardedMatchingEngine(shardCount, limits);
    }

    /** The hash loop over the bytes of a symbol. */
    method ShardFor(symbol: string) returns (s: nat)
      requires engines != []
      ensures s == ShardOf(symbol, |engines|)
    {
      hide Mix;
      var hash, i := OFFSET_BASIS, 0;
      while i < |symbol|
        invariant i <= |symbol|
        invariant HashFrom(hash, symbol[i..]) == HashFrom(OFFSET_BASIS, symbol)
      {
        assert symbol[i..][1..] == symbol[i + 1..];
        hash := Mix(hash, symbol[i]);
        i := i + 1;
      }
      s := hash as int % |engines|;
    }

    /** Work on one shard leaves the others as they are. */
    twostate lemma OthersAgree(s: nat)
      requires old(Valid()) && Apart() && s < |engines|
      requires engines == old(engines) && wals == old(wals) && |lastIngress| == old(|lastIngress|)
      requires forall i :: 0 <= i < |engines| && i != s ==>
                 && unchanged(engines[i]) && unchanged(wals[i])
                 && lastIngress[i] == old(lastIngress[i]) && shards[i] == old(shards[i])
      requires Agrees(s)
      ensures Valid()
    {
      hide WellFormed;
      forall i | 0 <= i < |engines|
        ensures Agrees(i)
      {
        assert old(Agrees(i));
      }
    }

    /** Spends an event number when the ingress number is stale, else records it. */
    method ValidateIngress(s: nat, msg: Message) returns (rejected: Option<ExecEvent>)
      requires Valid() && s < |engines|
      modifies this`lastIngress, this`shards, engines[s]
      ensures Valid()
      ensures var sh, e := old(shards[s]), old(shards[s].engine);
              if Stale(sh, msg) then
                && shards == old(shards)[s := sh.(engine := e.(sequence := e.sequence + 1))]
                && rejected.Some? && [rejected.value] == Stamp(e.sequence, [Rejection(msg.command, "OUT_OF_ORDER_INGRESS")])
              else rejected.None? && shards == old(shards)[s := Noted(sh, msg)]
    {
      hide WellFormed;
      assert Agrees(s);
      if msg.ingress.None? {
        assert shards == shards[s := shards[s]];
        return None;
      }
      if msg.ingress.value <= lastIngress[s] {
        var ev := engines[s].Reject(SymbolOf(msg.command), OrderIdOf(msg.command), "OUT_OF_ORDER_INGRESS");
        shards := shards[s := shards[s].(engine := engines[s].Abs())];
        OthersAgree(s);
        return Some(ev);
      }
      lastIngress := lastIngress[s := msg.ingress.value];
      shards := shards[s := Noted(shards[s], msg)];
      OthersAgree(s);
      return None;
    }

    method Log(s: nat, record: Json)
      requires Valid() && s < |wals|
      modifies this`shards, wals[s]
      ensures Valid()
      ensures shards == old(shards)[s := old(shards[s]).(store := Append(old(shards[s]).store, record))]
    {
      hide WellFormed, Append;
      assert Agrees(s);
      wals[s].AppendRecord(record);
      shards := shards[s := shards[s].(store := wals[s].Abs())];
      OthersAgree(s);
    }

    method RejectAt(s: nat, command: Command, reason: string) returns (ev: ExecEvent)
      requires Valid() && s < |engines|
      modifies this`shards, engines[s]
      ensures Valid()
      ensures var e := old(shards[s].engine);
              && shards == old(shards)[s := old(shards[s]).(engine := e.(sequence := e.sequence + 1))]
              && [ev] == Stamp(e.sequence, [Rejection(command, reason)])
    {
      hide WellFormed;
      assert Agrees(s);
      ev := engines[s].Reject(SymbolOf(command), OrderIdOf(command), reason);
      shards := shards[s := shards[s].(engine := engines[s].Abs())];
      OthersAgree(s);
    }

    /** The command reaches the matching core of one shard. */
    method Execute(s: nat, command: Command) returns (events: seq<ExecEvent>, trades: seq<Trade>)
      requires Valid() && s < |engines|
      modifies this`shards, engines[s]
      ensures Valid()
      ensures var e := old(shards[s].engine);
              && shards == old(shards)[s := old(shards[s]).(engine := Step(e, command).engine)]
              && events == Stamp(e.sequence, Step(e, command).events) && trades == Step(e, command).trades
    {
      hide WellFormed, SpecAdd, SpecReplace, Located;
      assert Agrees(s);
      match command {
        case Add(c) => events, trades := engines[s].Add(c);
        case Cancel(c) => events := engines[s].Cancel(c); trades := [];
        case Replace(c) => events, trades := engines[s].Replace(c);
      }
      shards := shards[s := shards[s].(engine := engines[s].Abs())];
      OthersAgree(s);
    }


    /** An accepted command: logged first, then applied. */
    method LogAndExecute(s: nat, command: Command) returns (events: seq<ExecEvent>, trades: seq<Trade>)
      requires Valid() && s < |engines|
      modifies this`shards, engines[s], wals[s]
      ensures Valid()
      ensures var sh := old(shards[s]);
              var r := Step(sh.engine, command);
              && shards == old(shards)[s := sh.(engine := r.engine, store := Append(sh.store, CommandRecord(command)))]
              && events == Stamp(sh.engine.sequence, r.events) && trades == r.trades
    {
      hide WellFormed, Step, CommandRecord, Append;
      assert Agrees(s);
      Log(s, CommandRecord(command));
      events, trades := Execute(s, command);
    }

    method Add(cmd: AddOrder, ingress: Option<int>) returns (events: seq<ExecEvent>, trades: seq<Trade>)
      requires Valid()
      modifies this`lastIngress, this`shards, engines, wals
      ensures Valid()
      ensures Submit(limits, old(shards), Message(Command.Add(cmd), ingress)) == (shards, Response(events, trades))
    {
      hide WellFormed, Agrees, Step, CommandRecord, RiskRecord, Append, CheckAdd, ShardOf;
      var msg := Message(Command.Add(cmd), ingress);
      var s := ShardFor(cmd.symbol);
      var rejected := ValidateIngress(s, msg);
      if rejected.Some? {
        return [rejected.value], [];
      }
      var reason := CheckAdd(limits, cmd);
      if reason.Some? {
        var ev := RejectAt(s, msg.command, reason.value);
        Log(s, RiskRecord(cmd, reason.value));
        assert shards == old(shards)[s := shards[s]];
        return [ev], [];
      }
      events, trades := LogAndExecute(s, msg.command);
      assert shards == old(shards)[s := shards[s]];
    }

    method Cancel(cmd: CancelOrder, ingress: Option<int>) returns (events: seq<ExecEvent>)
      requires Valid()
      modifies this`lastIngress, this`shards, engines, wals
      ensures Valid()
      ensures Submit(limits, old(shards), Message(Command.Cancel(cmd), ingress)) == (shards, Response(events, []))
    {
      hide WellFormed, Agrees, CommandRecord, RiskRecord, Append, CheckAdd, ShardOf, Located;
      var msg := Message(Command.Cancel(cmd), ingress);
      var s := ShardFor(cmd.symbol);
      var rejected := ValidateIngress(s, msg);
      if rejected.Some? {
        return [rejected.value];
      }
      var trades;
      events, trades := LogAndExecute(s, msg.command);
      assert shards == old(shards)[s := shards[s]];
    }

    method Replace(cmd: ReplaceOrder, ingress: Option<int>) returns (events: seq<ExecEvent>, trades: seq<Trade>)
      requires Valid()
      modifies this`lastIngress, this`shards, engines, wals
      ensures Valid()
      ensures Submit(limits, old(shards), Message(Command.Replace(cmd), ingress)) == (shards, Response(events, trades))
    {
      hide WellFormed, Agrees, Step, CommandRecord, RiskRecord, Append, CheckAdd, ShardOf;
      var msg := Message(Command.Replace(cmd), ingress);
      var s := ShardFor(cmd.symbol);
      var rejected := ValidateIngress(s, msg);
      if rejected.Some? {
        return [rejected.value], [];
      }
      events, trades := LogAndExecute(s, msg.command);
      assert shards == old(shards)[s := shards[s]];
    }

    method SaveOne(i: nat, names: seq<string>)
      requires Valid() && i < |engines| && Enumerates(names, shards[i].engine.books)
      modifies this`shards, wals[i]
      ensures Valid()
      ensures shards == old(shards)[i := SaveShard(old(shards[i]), names)]
    {
      hide WellFormed, SnapshotJson, Save, Enumerates;
      assert Agrees(i);
      var snap := engines[i].SaveSnapshot(names);
      wals[i].SaveSnapshot(snap);
      shards := shards[i := SaveShard(shards[i], names)];
      OthersAgree(i);
    }

    method SnapshotAll(names: seq<seq<string>>)
      requires Valid() && NamesOk(shards, names)
      modifies this`shards, wals
      ensures Valid()
      ensures shards == ShardedSpec.SnapshotAll(old(shards), names)
    {
      hide WellFormed, Agrees, SaveShard, Enumerates;
      ghost var saved := ShardedSpec.SnapshotAll(shards, names);
      var i := 0;
      while i < |engines|
        invariant i <= |engines| && Valid() && |shards| == |saved|
        invariant shards[..i] == saved[..i] && shards[i..] == old(shards)[i..]
      {
        assert shards[i] == old(shards)[i..][0];
        SaveOne(i, names[i]);
        i := i + 1;
      }
    }

    /** False where the record is not valid. */
    static method ApplyRecord(engine: MatchingEngine, record: Json) returns (ok: bool)
      requires engine.Valid()
      modifies engine
      ensures engine.Valid()
      ensures ok == !DecodeRecord(record).Invalid?
      ensures engine.Abs() == if DecodeRecord(record).Apply? then Step(old(engine.Abs()), DecodeRecord(record).command).engine
                              else old(engine.Abs())
    {
      hide WellFormed, SpecAdd, SpecReplace, SpecCancel, DecodeRecord;
      var decoded := DecodeRecord(record);
      ok := !decoded.Invalid?;
      if decoded.Apply? {
        match decoded.command {
          case Add(c) => var events, trades := engine.Add(c);
          case Cancel(c) => var events := engine.Cancel(c);
          case Replace(c) => var events, trades := engine.Replace(c);
        }
      }
    }

    static method ApplyAll(engine: MatchingEngine, records: seq<Json>) returns (ok: bool)
      requires engine.Valid()
      modifies engine
      ensures engine.Valid()
      ensures ok == ApplyRecords(old(engine.Abs()), records).Some?
      ensures ok ==> engine.Abs() == ApplyRecords(old(engine.Abs()), records).value
    {
      hide WellFormed, Step, DecodeRecord;
      var i := 0;
      while i < |records|
        invariant i <= |records| && engine.Valid()
        invariant ApplyRecords(engine.Abs(), records[i..]) == ApplyRecords(old(engine.Abs()), records)
      {
        assert records[i..][0] == records[i] && records[i..][1..] == records[i + 1..];
        var applied := ApplyRecord(engine, records[i]);
        if !applied {
          return false;
        }
        i := i + 1;
      }
      return true;
    }

    method ReadSnapshot(i: nat) returns (snap: Loaded)
      requires Valid() && i < |engines|
      ensures snap == Load(shards[i].store)
    {
      hide WellFormed, Load;
      assert Agrees(i);
      snap := wals[i].LoadSnapshot();
    }

    method ReplayLog(i: nat) returns (records: Option<seq<Json>>)
      requires Valid() && i < |engines|
      modifies this`shards, wals[i]
      ensures Valid()
      ensures shards == old(shards)[i := old(shards[i]).(store := Flush(old(shards[i]).store))]
      ensures records == Replay(Flush(old(shards[i]).store).file)
    {
      hide WellFormed, Replay, Flush;
      assert Agrees(i);
      records := wals[i].ReplayCommands();
      shards := shards[i := shards[i].(store := wals[i].Abs())];
      OthersAgree(i);
    }

    /** Rebuilds one shard; null where the source raises an exception.  What is
        staged is flushed first. */
    method ReplayShard(i: int) returns (rebuilt: MatchingEngine?)
      requires Valid()
      requires 0 <= i < |engines| && Base(shards[i].store).Some? ==> WellFormed(Base(shards[i].store).value)
      modifies this`shards, if 0 <= i < |wals| then {wals[i]} else {}
      ensures Valid()
      ensures shards == if 0 <= i < |engines| && Base(old(shards[i]).store).Some?
                        then old(shards)[i := old(shards[i]).(store := Flush(old(shards[i]).store))] else old(shards)
      ensures rebuilt == null <==> !(0 <= i < |engines|) || ShardedSpec.ReplayShard(old(shards[i]).store).None?
      ensures rebuilt != null ==>
                && fresh(rebuilt) && rebuilt.Valid()
                && Some(rebuilt.Abs()) == ShardedSpec.ReplayShard(old(shards[i]).store)
    {
      hide WellFormed, ApplyRecords, LoadJson, Replay, Load, Agrees;
      if i < 0 || i >= |engines| {
        return null;
      }
      rebuilt := new MatchingEngine();
      var snap := ReadSnapshot(i);
      if snap.Unreadable? {
        return null;
      }
      if snap.Document? {
        var ok := rebuilt.LoadSnapshot(snap.value);
        if !ok {
          return null;
        }
      }
      assert Base(shards[i].store) == Some(rebuilt.Abs());
      var records := ReplayLog(i);
      if records.None? {
        return null;
      }
      var ok := ApplyAll(rebuilt, records.value);
      if !ok {
        return null;
      }
    }
  }
}
