/** What the events of a command report: its own symbol, its admission first, and
    one execution for each trade, in order. */
module EventLaws {
  import opened Orders
  import opened EngineSpec
  import opened EngineInvariants

  datatype Execution = Execution(aggressive: int, passive: int, price: int, quantity: int)

  /** The executions among some events. */
  function Executions(events: seq<Event>): seq<Execution> {
    if events == [] then [] else
    var init, last := events[..|events| - 1], events[|events| - 1].payload;
    Executions(init) +
    if last.Executed? then [Execution(last.aggressive, last.passive, last.price, last.quantity)] else []
  }

  /** The executions some trades call for. */
  function Fills(trades: seq<Trade>): seq<Execution> {
    if trades == [] then [] else
    var init, t := trades[..|trades| - 1], trades[|trades| - 1];
    Fills(init) + [Execution(t.aggressiveOrderId, t.passiveOrderId, t.price, t.quantity)]
  }

  predicate AllAbout(symbol: string, events: seq<Event>) {
    forall i :: 0 <= i < |events| ==> events[i].symbol == symbol
  }

  /** Events that concern one symbol and report the trades. */
  predicate Reported(symbol: string, events: seq<Event>, trades: seq<Trade>) {
    events != [] && AllAbout(symbol, events) && Executions(events) == Fills(trades)
  }

  lemma {:induction false} FirstEvent(ev: Event)
    requires !ev.payload.Executed?
    ensures Reported(ev.symbol, [ev], [])
  {
    assert [ev][..0] == [];
    assert Executions([ev]) == Executions([]) + [];
  }

  lemma {:induction false} OneMoreEvent(symbol: string, events: seq<Event>, trades: seq<Trade>, payload: Payload)
    requires Reported(symbol, events, trades) && !payload.Executed?
    ensures Reported(symbol, events + [Event(symbol, payload)], trades)
    ensures (events + [Event(symbol, payload)])[0] == events[0]
  {
    assert (events + [Event(symbol, payload)])[..|events|] == events;
  }

  lemma {:induction false} OneMoreTrade(symbol: string, events: seq<Event>, trades: seq<Trade>, t: Trade)
    requires Reported(symbol, events, trades)
    ensures var ev := Event(symbol, Executed(t.aggressiveOrderId, t.passiveOrderId, t.price, t.quantity));
            Reported(symbol, events + [ev], trades + [t]) && (events + [ev])[0] == events[0]
  {
    var ev := Event(symbol, Executed(t.aggressiveOrderId, t.passiveOrderId, t.price, t.quantity));
    assert (events + [ev])[..|events|] == events && (trades + [t])[..|trades|] == trades;
  }

  lemma {:induction false} MatchReports(cmd: AddOrder, m: Matching)
    requires Reported(cmd.symbol, m.events, m.trades)
    ensures var r := Match(cmd, m);
            Reported(cmd.symbol, r.events, r.trades) && r.events[0] == m.events[0]
    decreases |m.opposite| + if m.Active() then 1 else 0
  {
    hide Reported;
    if !Done(cmd, m) {
      if SelfMatch(cmd, m.opposite[0]) {
        PreventReports(cmd, m);
      } else {
        FillReports(cmd, m);
      }
      MatchReports(cmd, MatchStep(cmd, m));
    }
  }

  lemma {:induction false} PreventReports(cmd: AddOrder, m: Matching)
    requires m.opposite != [] && Reported(cmd.symbol, m.events, m.trades)
    ensures var r := PreventSelfTrade(cmd, m);
            Reported(cmd.symbol, r.events, r.trades) && r.events[0] == m.events[0]
  {
    hide Executions, Fills;
    var passive := m.opposite[0];
    var first := Cancelled(passive.orderId, passive.remaining, Some(STP_REASON));
    OneMoreEvent(cmd.symbol, m.events, m.trades, first);
    var m1 := if DropsPassive(cmd) then m.Log(cmd.symbol, first).Pop() else m;
    OneMoreEvent(cmd.symbol, m1.events, m1.trades, Cancelled(cmd.orderId, m1.remaining, Some(STP_REASON)));
  }

  lemma {:induction false} FillReports(cmd: AddOrder, m: Matching)
    requires m.opposite != [] && Reported(cmd.symbol, m.events, m.trades)
    ensures var r := Fill(cmd, m);
            Reported(cmd.symbol, r.events, r.trades) && r.events[0] == m.events[0]
  {
    hide Executions, Fills;
    var passive := m.opposite[0];
    OneMoreTrade(cmd.symbol, m.events, m.trades, BuildTrade(cmd, passive, Min(m.remaining, passive.remaining)));
  }

  /** Adding an order: rejected in one event, or admitted first and then reported
      execution by execution as it trades. */
  lemma {:induction false} AddReports(e: Engine, cmd: AddOrder)
    ensures var r := SpecAdd(e, cmd);
            && Reported(cmd.symbol, r.events, r.trades)
            && (if FokRejected(e, cmd) then
                  r.events == [Event(cmd.symbol, Rejected(cmd.orderId, "FOK_UNFILLABLE"))] && r.trades == []
                else r.events[0].payload == Accepted(cmd.orderId, cmd.quantity))
  {
    hide Reported, Match;
    if FokRejected(e, cmd) {
      FirstEvent(SpecAdd(e, cmd).events[0]);
    } else {
      var m := StartMatching(e, cmd);
      FirstEvent(m.events[0]);
      MatchReports(cmd, m);
      var r := Match(cmd, m);
      OneMoreEvent(cmd.symbol, r.events, r.trades, Rested(cmd.orderId, r.remaining));
      OneMoreEvent(cmd.symbol, r.events, r.trades, Cancelled(cmd.orderId, r.remaining, None));
    }
  }

  lemma {:induction false} ExecutionsAfter(ev: Event, events: seq<Event>)
    requires !ev.payload.Executed?
    ensures Executions([ev] + events) == Executions(events)
    decreases |events|
  {
    var all := [ev] + events;
    if events == [] {
      assert all == [ev] && all[..0] == [];
    } else {
      var k := |events| - 1;
      assert all[..|all| - 1] == [ev] + events[..k];
      ExecutionsAfter(ev, events[..k]);
    }
  }

  /** Every command is answered, about its own symbol, with its trades reported. */
  lemma {:induction false} StepReports(e: Engine, command: Command)
    requires WellFormed(e)
    ensures Reported(SymbolOf(command), Step(e, command).events, Step(e, command).trades)
  {
    hide WellFormed, SpecAdd, Located, Reported;
    match command
    case Add(c) => AddReports(e, c);
    case Cancel(c) => CancelReports(e, c);
    case Replace(c) =>
      CancelReports(e, CancelOrder(c.symbol, c.orderId));
      if c.orderId in e.index {
        var loc := e.index[c.orderId];
        var first := SpecCancel(e, CancelOrder(c.symbol, c.orderId));
        var add := Replacement(c, Located(e.books, loc).value.participant, loc.side);
        AddReports(first.engine, add);
        JoinReports(c.symbol, first.events[0], SpecAdd(first.engine, add).events, SpecAdd(first.engine, add).trades);
      }
  }

  lemma {:induction false} JoinReports(symbol: string, ev: Event, events: seq<Event>, trades: seq<Trade>)
    requires ev.symbol == symbol && !ev.payload.Executed? && Reported(symbol, events, trades)
    ensures Reported(symbol, [ev] + events, trades)
  {
    ExecutionsAfter(ev, events);
  }

  lemma {:induction false} CancelReports(e: Engine, cmd: CancelOrder)
    requires WellFormed(e)
    ensures var r := SpecCancel(e, cmd);
            && r.trades == [] && Reported(cmd.symbol, r.events, r.trades)
            && if cmd.orderId in e.index then
                 var o := Located(e.books, e.index[cmd.orderId]);
                 o.Some? && r.events == [Event(cmd.symbol, Cancelled(cmd.orderId, o.value.remaining, None))]
               else r.events == [Event(cmd.symbol, Rejected(cmd.orderId, "UNKNOWN_ORDER"))]
  {
    hide BooksOk, Located;
    if cmd.orderId in e.index {
      assert Points(e.books, cmd.orderId, e.index[cmd.orderId]);
    }
    FirstEvent(SpecCancel(e, cmd).events[0]);
  }
}
