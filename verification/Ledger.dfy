/** Conservation of volume: what rests is what was accepted, less twice what was
    executed (both sides of a trade), less what was cancelled. */
module Ledger {
  import opened Orders
  import opened EngineSpec
  import opened EngineInvariants
  import opened MatchingLaws

  function BookVolume(b: Book): int {
    Volume(b.bids) + Volume(b.asks)
  }

  ghost function TotalVolume(books: map<string, Book>): int {
    if books == map[] then 0 else
    var s :| s in books;
    BookVolume(books[s]) + TotalVolume(books - {s})
  }

  /** What an event announces about resting volume. */
  function Delta(payload: Payload): int {
    match payload
    case Accepted(_, quantity) => quantity
    case Executed(_, _, _, quantity) => -2 * quantity
    case Cancelled(_, remaining, _) => -remaining
    case Rested(_, _) => 0
    case Rejected(_, _) => 0
  }

  function Announced(events: seq<Event>): int {
    if events == [] then 0 else Announced(events[..|events| - 1]) + Delta(events[|events| - 1].payload)
  }

  lemma {:induction false} AnnouncedConcat(a: seq<Event>, b: seq<Event>)
    ensures Announced(a + b) == Announced(a) + Announced(b)
  {
    if b == [] {
      assert a + b == a;
    } else {
      assert (a + b)[..|a + b| - 1] == a + b[..|b| - 1];
      AnnouncedConcat(a, b[..|b| - 1]);
    }
  }

  lemma {:induction false} AnnouncedLog(events: seq<Event>, ev: Event)
    ensures Announced(events + [ev]) == Announced(events) + Delta(ev.payload)
  {
    assert (events + [ev])[..|events|] == events;
  }

  // ---------------------------------------------------------------- sums

  lemma {:induction false} VolumeConcat(a: seq<RestingOrder>, b: seq<RestingOrder>)
    ensures Volume(a + b) == Volume(a) + Volume(b)
  {
    if a == [] {
      assert a + b == b;
    } else {
      assert (a + b)[1..] == a[1..] + b;
      VolumeConcat(a[1..], b);
    }
  }

  lemma {:induction false} InsertVolume(side: Side, orders: seq<RestingOrder>, o: RestingOrder)
    ensures Volume(Insert(side, orders, o)) == Volume(orders) + o.remaining
  {
    var k := InsertAt(side, orders, o);
    VolumeConcat(orders[..k] + [o], orders[k..]);
    VolumeConcat(orders[..k], [o]);
    VolumeConcat(orders[..k], orders[k..]);
    assert orders == orders[..k] + orders[k..];
  }

  lemma {:induction false} RemoveVolume(orders: seq<RestingOrder>, node: nat)
    requires Lookup(orders, node).Some?
    ensures Volume(Remove(orders, node)) == Volume(orders) - Lookup(orders, node).value.remaining
  {
    var k := LookupAt(orders, node);
    VolumeConcat(orders[..k], orders[k + 1..]);
    VolumeConcat(orders[..k], [orders[k]] + orders[k + 1..]);
    assert orders == orders[..k] + ([orders[k]] + orders[k + 1..]);
  }

  lemma {:induction false} TotalWithout(books: map<string, Book>, s: string)
    requires s in books
    ensures TotalVolume(books) == BookVolume(books[s]) + TotalVolume(books - {s})
    decreases |books|
  {
    var t :| t in books && TotalVolume(books) == BookVolume(books[t]) + TotalVolume(books - {t});
    if t != s {
      TotalWithout(books - {t}, s);
      TotalWithout(books - {s}, t);
      assert books - {t} - {s} == books - {s} - {t};
    }
  }

  lemma {:induction false} TotalUpdate(books: map<string, Book>, s: string, b: Book)
    ensures TotalVolume(books[s := b]) == TotalVolume(books) - BookVolume(BookIn(books, s)) + BookVolume(b)
  {
    TotalWithout(books[s := b], s);
    if s in books {
      TotalWithout(books, s);
      assert books[s := b] - {s} == books - {s};
    } else {
      assert books[s := b] - {s} == books;
    }
  }

  lemma {:induction false} TotalSetSide(e: Engine, s: string, d: Side, orders: seq<RestingOrder>)
    ensures TotalVolume(SetSide(e, s, d, orders).books) ==
            TotalVolume(e.books) - Volume(BookFor(e, s).Of(d)) + Volume(orders)
  {
    TotalUpdate(e.books, s, BookFor(e, s).With(d, orders));
  }

  // ---------------------------------------------------------------- matching

  /** Each turn of the loop moves volume between the list, the remaining quantity
      and the announcements, and loses none. */
  lemma {:induction false} MatchBalances(cmd: AddOrder, m: Matching)
    requires m.fault == NoFault && Tradable(cmd, m.opposite)
    ensures var r := Match(cmd, m);
            Volume(r.opposite) + r.remaining - Announced(r.events) ==
            Volume(m.opposite) + m.remaining - Announced(m.events)
    decreases |m.opposite| + if m.Active() then 1 else 0
  {
    if !Done(cmd, m) {
      if SelfMatch(cmd, m.opposite[0]) {
        PreventBalances(cmd, m);
      } else {
        FillBalances(cmd, m);
      }
      MatchStepCases(cmd, m);
      MatchBalances(cmd, MatchStep(cmd, m));
    }
  }

  lemma {:induction false} PreventBalances(cmd: AddOrder, m: Matching)
    requires m.opposite != []
    ensures var r := PreventSelfTrade(cmd, m);
            Volume(r.opposite) + r.remaining - Announced(r.events) ==
            Volume(m.opposite) + m.remaining - Announced(m.events)
  {
    var passive := m.opposite[0];
    var dropped := Event(cmd.symbol, Cancelled(passive.orderId, passive.remaining, Some(STP_REASON)));
    var stopped := Event(cmd.symbol, Cancelled(cmd.orderId, m.remaining, Some(STP_REASON)));
    var events := if DropsPassive(cmd) then m.events + [dropped] else m.events;
    AnnouncedLog(m.events, dropped);
    AnnouncedLog(events, stopped);
    assert PreventSelfTrade(cmd, m).events == if DropsAggressor(cmd) then events + [stopped] else events;
  }

  lemma {:induction false} FillBalances(cmd: AddOrder, m: Matching)
    requires m.Active() && m.opposite != [] && Tradable(cmd, m.opposite)
    ensures var r := Fill(cmd, m);
            Volume(r.opposite) + r.remaining - Announced(r.events) ==
            Volume(m.opposite) + m.remaining - Announced(m.events)
  {
    var passive := m.opposite[0];
    FillCases(cmd, m);
    AnnouncedLog(m.events, Event(cmd.symbol, Executed(cmd.orderId, passive.orderId, passive.price,
                                                      Min(m.remaining, passive.remaining))));
  }

  // ---------------------------------------------------------------- commands

  /** Quantity that disappears with no event: the remainder of a fill-or-kill order. */
  function Unreported(e: Engine, cmd: AddOrder): int {
    if FokRejected(e, cmd) then 0 else
    var left := Match(cmd, StartMatching(e, cmd)).remaining;
    if left < 0 || cmd.tif == Fok then left else 0
  }

  lemma {:induction false} AddLedger(e: Engine, cmd: AddOrder)
    requires WellFormed(e)
    ensures TotalVolume(SpecAdd(e, cmd).engine.books) ==
            TotalVolume(e.books) + Announced(SpecAdd(e, cmd).events) - Unreported(e, cmd)
  {
    if FokRejected(e, cmd) {
      TotalUpdate(e.books, cmd.symbol, BookFor(e, cmd.symbol));
    } else {
      var m := StartMatching(e, cmd);
      StartOk(e, cmd);
      MatchSound(e, cmd, m);
      StartTradable(e, cmd);
      MatchBalances(cmd, m);
      TotalSetSide(e, cmd.symbol, Opposite(cmd.side), Match(cmd, m).opposite);
      SettleLedger(e, cmd, Match(cmd, m));
    }
  }

  lemma {:induction false} SettleLedger(e: Engine, cmd: AddOrder, m: Matching)
    requires m.fault == NoFault
    ensures TotalVolume(Settle(e, cmd, m).engine.books) - Announced(Settle(e, cmd, m).events) ==
            TotalVolume(During(e, cmd, m).books) - Announced(m.events)
            + if m.remaining < 0 || cmd.tif == Fok then 0 else m.remaining
  {
    if m.Active() && cmd.tif == Gtc {
      RestLedger(During(e, cmd, m).(sequence := e.sequence + |m.events|), cmd, m.remaining);
      AnnouncedLog(m.events, Event(cmd.symbol, Rested(cmd.orderId, m.remaining)));
    } else if m.Active() {
      AnnouncedLog(m.events, Event(cmd.symbol, Cancelled(cmd.orderId, m.remaining, None)));
    }
  }

  lemma {:induction false} RestLedger(e: Engine, cmd: AddOrder, remaining: int)
    ensures TotalVolume(Rest(e, cmd, remaining).books) == TotalVolume(e.books) + remaining
  {
    var own := BookFor(e, cmd.symbol).Of(cmd.side);
    var o := RestingOrder(cmd.symbol, cmd.orderId, cmd.participant, cmd.side, cmd.price, remaining,
                          e.sequence, e.nextNode);
    InsertVolume(cmd.side, own, o);
    TotalSetSide(e, cmd.symbol, cmd.side, Insert(cmd.side, own, o));
  }

  lemma {:induction false} CancelLedger(e: Engine, cmd: CancelOrder)
    requires WellFormed(e)
    ensures TotalVolume(SpecCancel(e, cmd).engine.books) ==
            TotalVolume(e.books) + Announced(SpecCancel(e, cmd).events)
  {
    if cmd.orderId in e.index {
      var loc := e.index[cmd.orderId];
      assert Points(e.books, cmd.orderId, loc);
      var orders := BookFor(e, loc.symbol).Of(loc.side);
      RemoveVolume(orders, loc.node);
      TotalSetSide(e, loc.symbol, loc.side, Remove(orders, loc.node));
    }
  }

  // ---------------------------------------------------------------- when the books balance

  /** A fill-or-kill order with CancelPassive passes the pre-check on volume that
      includes its own orders, then removes those instead of trading with them. */
  predicate SilentlyShort(e: Engine, cmd: AddOrder) {
    && cmd.tif == Fok && cmd.stp == CancelPassive && !FokRejected(e, cmd)
    && Fillable(cmd, Opposing(e, cmd)) < cmd.quantity
  }

  lemma {:induction false} FokDrains(cmd: AddOrder, m: Matching)
    requires cmd.tif == Fok && cmd.stp != CancelPassive
    requires m.fault == NoFault && Tradable(cmd, m.opposite)
    requires 0 <= m.remaining <= AvailableVolume(Opposite(cmd.side), m.opposite, cmd.price)
    ensures Match(cmd, m).remaining == 0
    decreases |m.opposite| + if m.Active() then 1 else 0
  {
    if !Done(cmd, m) {
      MatchStepCases(cmd, m);
      var m1 := MatchStep(cmd, m);
      if m1.remaining > 0 {
        FokDrains(cmd, m1);
      }
    }
  }

  lemma {:induction false} UnreportedExactly(e: Engine, cmd: AddOrder)
    requires WellFormed(e)
    ensures Unreported(e, cmd) != 0 <==> cmd.quantity < 0 || SilentlyShort(e, cmd)
  {
    var m, opp := StartMatching(e, cmd), Opposing(e, cmd);
    StartTradable(e, cmd);
    if cmd.tif == Fok {
      FillableWithinAvailable(cmd, opp);
      if cmd.stp != CancelPassive && !FokRejected(e, cmd) && cmd.quantity >= 0 {
        FokDrains(cmd, m);
      }
    }
    if cmd.quantity >= 0 {
      FillableNonNegative(cmd, opp);
      MatchTrades(cmd, m);
      var k, cut, stopped := PriorityWalk(cmd, m);
    }
  }

  /** Will every quantity this command touches be announced?  Decided before it runs. */
  predicate Accounted(e: Engine, command: Command) {
    match command
    case Add(c) => c.quantity >= 0 && !SilentlyShort(e, c)
    case Cancel(_) => true
    case Replace(c) => c.orderId in e.index ==> c.newQuantity >= 0
  }

  /** One command conserves volume exactly when it is accounted for. */
  lemma {:induction false} StepLedger(e: Engine, command: Command)
    requires WellFormed(e)
    ensures TotalVolume(Step(e, command).engine.books) ==
            TotalVolume(e.books) + Announced(Step(e, command).events)
            <==> Accounted(e, command)
  {
    match command
    case Add(c) =>
      AddLedger(e, c);
      UnreportedExactly(e, c);
    case Cancel(c) => CancelLedger(e, c);
    case Replace(c) =>
      var first := SpecCancel(e, CancelOrder(c.symbol, c.orderId));
      CancelLedger(e, CancelOrder(c.symbol, c.orderId));
      if c.orderId in e.index {
        var loc := e.index[c.orderId];
        assert Points(e.books, c.orderId, loc);
        var add := Replacement(c, Located(e.books, loc).value.participant, loc.side);
        CancelOk(e, CancelOrder(c.symbol, c.orderId));
        AddLedger(first.engine, add);
        UnreportedExactly(first.engine, add);
        AnnouncedConcat(first.events, SpecAdd(first.engine, add).events);
      }
  }

  predicate AccountedRun(e: Engine, commands: seq<Command>)
    decreases |commands|
  {
    commands == [] || (Accounted(e, commands[0]) && AccountedRun(Step(e, commands[0]).engine, commands[1..]))
  }

  function AnnouncedByRun(e: Engine, commands: seq<Command>): int
    decreases |commands|
  {
    if commands == [] then 0
    else Announced(Step(e, commands[0]).events) + AnnouncedByRun(Step(e, commands[0]).engine, commands[1..])
  }

  lemma {:induction false} RunLedger(e: Engine, commands: seq<Command>)
    requires WellFormed(e) && AccountedRun(e, commands)
    ensures TotalVolume(Run(e, commands).books) == TotalVolume(e.books) + AnnouncedByRun(e, commands)
    decreases |commands|
  {
    if commands != [] {
      StepOk(e, commands[0]);
      StepLedger(e, commands[0]);
      RunLedger(Step(e, commands[0]).engine, commands[1..]);
    }
  }

  /** Non-negative quantities and no fill-or-kill order with CancelPassive are enough,
      even when ids are reused. */
  predicate Plain(command: Command) {
    match command
    case Add(c) => c.quantity >= 0 && !(c.tif == Fok && c.stp == CancelPassive)
    case Cancel(_) => true
    case Replace(c) => c.newQuantity >= 0
  }

  lemma {:induction false} PlainRunAccounted(e: Engine, commands: seq<Command>)
    requires forall i :: 0 <= i < |commands| ==> Plain(commands[i])
    ensures AccountedRun(e, commands)
    decreases |commands|
  {
    if commands != [] {
      assert Plain(commands[0]);
      PlainRunAccounted(Step(e, commands[0]).engine, commands[1..]);
    }
  }

  /** Resting volume equals accepted less twice executed less cancelled. */
  lemma {:induction false} VolumeConserved(commands: seq<Command>)
    requires forall i :: 0 <= i < |commands| ==> Plain(commands[i])
    ensures TotalVolume(Run(EMPTY_ENGINE, commands).books) == AnnouncedByRun(EMPTY_ENGINE, commands)
  {
    PlainRunAccounted(EMPTY_ENGINE, commands);
    RunLedger(EMPTY_ENGINE, commands);
  }
}
