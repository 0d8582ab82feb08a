/** Two engines that hold the same orders in the same places answer alike.

    The second engine may hold only the symbols selected by `p` (one shard of a
    larger engine), may number its list nodes differently (`f` renames them), may
    have recorded different entry numbers, and may be at a different event number. */
module Simulation {
  import opened Orders
  import opened EngineSpec

  type Selection = string -> bool

  /** A list node, named by the list it is in and its number there. */
  datatype Slot = Slot(symbol: string, side: Side, node: nat)

  type Renaming = map<Slot, nat>

  ghost predicate Injective(f: Renaming) {
    forall x, y :: x in f && y in f && f[x] == f[y] ==> x == y
  }

  ghost predicate SameOrder(f: Renaming, s: string, d: Side, a: RestingOrder, b: RestingOrder) {
    Slot(s, d, a.node) in f && b == a.(node := f[Slot(s, d, a.node)], entered := b.entered)
  }

  ghost predicate SameSide(f: Renaming, s: string, d: Side, a: seq<RestingOrder>, b: seq<RestingOrder>) {
    |a| == |b| && forall i :: 0 <= i < |a| ==> SameOrder(f, s, d, a[i], b[i])
  }

  ghost predicate SameBook(f: Renaming, s: string, a: Book, b: Book) {
    SameSide(f, s, Buy, a.bids, b.bids) && SameSide(f, s, Sell, a.asks, b.asks)
  }

  ghost predicate SameLocation(f: Renaming, a: Location, b: Location) {
    var slot := Slot(a.symbol, a.side, a.node);
    slot in f && b == a.(node := f[slot])
  }

  ghost predicate SameBooks(p: Selection, f: Renaming, a: map<string, Book>, b: map<string, Book>) {
    && (forall s :: s in b <==> s in a && p(s))
    && (forall s :: s in b ==> SameBook(f, s, a[s], b[s]))
  }

  ghost predicate SameIndex(p: Selection, f: Renaming, a: map<int, Location>, b: map<int, Location>) {
    && (forall id :: id in b <==> id in a && p(a[id].symbol))
    && (forall id :: id in b ==> SameLocation(f, a[id], b[id]))
  }

  ghost predicate Names(f: Renaming, a: Engine, b: Engine) {
    Injective(f) && forall x :: x in f ==> x.node < a.nextNode && f[x] < b.nextNode
  }

  /** `b` is the part of `a` that `p` selects. */
  ghost predicate Mirrors(p: Selection, f: Renaming, a: Engine, b: Engine) {
    Names(f, a, b) && SameBooks(p, f, a.books, b.books) && SameIndex(p, f, a.index, b.index)
  }

  // ---------------------------------------------------------------- lists

  lemma {:induction false} BookForSame(p: Selection, f: Renaming, a: Engine, b: Engine, symbol: string)
    requires Mirrors(p, f, a, b) && p(symbol)
    ensures SameBook(f, symbol, BookFor(a, symbol), BookFor(b, symbol))
  {
  }

  lemma {:induction false} LookupSame(f: Renaming, s: string, d: Side, a: seq<RestingOrder>, b: seq<RestingOrder>, node: nat)
    requires Injective(f) && SameSide(f, s, d, a, b) && Slot(s, d, node) in f
    ensures var node' := f[Slot(s, d, node)];
            && (Lookup(a, node).None? <==> Lookup(b, node').None?)
            && (Lookup(a, node).Some? ==> SameOrder(f, s, d, Lookup(a, node).value, Lookup(b, node').value))
            && SameSide(f, s, d, Remove(a, node), Remove(b, node'))
  {
    if a != [] {
      assert SameOrder(f, s, d, a[0], b[0]);
      assert SameSide(f, s, d, a[1..], b[1..]);
      if a[0].node != node {
        LookupSame(f, s, d, a[1..], b[1..], node);
      }
    }
  }

  lemma {:induction false} InsertSame(f: Renaming, s: string, d: Side, a: seq<RestingOrder>, b: seq<RestingOrder>,
                                      o: RestingOrder, o': RestingOrder)
    requires SameSide(f, s, d, a, b) && SameOrder(f, s, d, o, o')
    ensures SameSide(f, s, d, Insert(d, a, o), Insert(d, b, o'))
  {
    if a != [] {
      assert SameOrder(f, s, d, a[0], b[0]);
      assert SameSide(f, s, d, a[1..], b[1..]);
      InsertSame(f, s, d, a[1..], b[1..], o, o');
    }
  }

  lemma {:induction false} AvailableSame(f: Renaming, s: string, d: Side, a: seq<RestingOrder>, b: seq<RestingOrder>, limit: int)
    requires SameSide(f, s, d, a, b)
    ensures AvailableVolume(d, a, limit) == AvailableVolume(d, b, limit)
  {
    if a != [] {
      assert SameOrder(f, s, d, a[0], b[0]);
      assert SameSide(f, s, d, a[1..], b[1..]);
      AvailableSame(f, s, d, a[1..], b[1..], limit);
    }
  }

  // ---------------------------------------------------------------- matching

  ghost predicate SameMatching(p: Selection, f: Renaming, cmd: AddOrder, a: Matching, b: Matching) {
    && SameSide(f, cmd.symbol, Opposite(cmd.side), a.opposite, b.opposite) && SameIndex(p, f, a.index, b.index)
    && a.remaining == b.remaining && a.events == b.events && a.trades == b.trades && a.fault == b.fault
  }

  lemma {:induction false} MatchStepSame(p: Selection, f: Renaming, cmd: AddOrder, a: Matching, b: Matching)
    requires SameMatching(p, f, cmd, a, b) && a.opposite != []
    ensures SameMatching(p, f, cmd, MatchStep(cmd, a), MatchStep(cmd, b))
  {
    var o, o' := a.opposite[0], b.opposite[0];
    assert SameOrder(f, cmd.symbol, Opposite(cmd.side), o, o');
    assert SameSide(f, cmd.symbol, Opposite(cmd.side), a.opposite[1..], b.opposite[1..]);
    assert SameIndex(p, f, a.index - {o.orderId}, b.index - {o.orderId});
    if !SelfMatch(cmd, o) {
      FillSame(p, f, cmd, a, b);
    }
  }

  /** What the two heads and the lists behind them have in common. */
  lemma {:induction false} HeadsSame(p: Selection, f: Renaming, cmd: AddOrder, a: Matching, b: Matching, left: int)
    requires SameMatching(p, f, cmd, a, b) && a.opposite != []
    ensures var s, d, o, o' := cmd.symbol, Opposite(cmd.side), a.opposite[0], b.opposite[0];
            var a1, b1 := [o.(remaining := left)] + a.opposite[1..], [o'.(remaining := left)] + b.opposite[1..];
            && o'.symbol == o.symbol && o'.remaining == o.remaining && o'.price == o.price
            && o'.orderId == o.orderId && o'.participant == o.participant
            && SameSide(f, s, d, a1, b1) && SameSide(f, s, d, a1[1..], b1[1..])
            && SameIndex(p, f, a.index - {o.orderId}, b.index - {o.orderId})
  {
    var o, o' := a.opposite[0], b.opposite[0];
    assert SameOrder(f, cmd.symbol, Opposite(cmd.side), o, o');
    var a1, b1 := [o.(remaining := left)] + a.opposite[1..], [o'.(remaining := left)] + b.opposite[1..];
    assert SameSide(f, cmd.symbol, Opposite(cmd.side), a1, b1);
  }

  lemma {:induction false} FillSame(p: Selection, f: Renaming, cmd: AddOrder, a: Matching, b: Matching)
    requires SameMatching(p, f, cmd, a, b) && a.opposite != [] && b.opposite != []
    ensures SameMatching(p, f, cmd, Fill(cmd, a), Fill(cmd, b))
  {
    hide SameSide, SameIndex;
    HeadsSame(p, f, cmd, a, b, a.opposite[0].remaining - Min(a.remaining, a.opposite[0].remaining));
  }

  lemma {:induction false} MatchSame(p: Selection, f: Renaming, cmd: AddOrder, a: Matching, b: Matching)
    requires SameMatching(p, f, cmd, a, b)
    ensures SameMatching(p, f, cmd, Match(cmd, a), Match(cmd, b))
    decreases |a.opposite| + if a.Active() then 1 else 0
  {
    if a.opposite != [] {
      assert SameOrder(f, cmd.symbol, Opposite(cmd.side), a.opposite[0], b.opposite[0]);
    }
    if !Done(cmd, a) {
      MatchStepSame(p, f, cmd, a, b);
      MatchSame(p, f, cmd, MatchStep(cmd, a), MatchStep(cmd, b));
    }
  }

  // ---------------------------------------------------------------- commands

  ghost predicate SameAnswer(a: Outcome, b: Outcome) {
    a.events == b.events && a.trades == b.trades && a.fault == b.fault
  }

  lemma {:induction false} SetSideSame(p: Selection, f: Renaming, a: Engine, b: Engine, symbol: string, side: Side,
                    l: seq<RestingOrder>, l': seq<RestingOrder>)
    requires Mirrors(p, f, a, b) && p(symbol) && SameSide(f, symbol, side, l, l')
    ensures Mirrors(p, f, SetSide(a, symbol, side, l), SetSide(b, symbol, side, l'))
  {
    BookForSame(p, f, a, b, symbol);
  }

  /** A new list node on each side. */
  lemma {:induction false} Extend(p: Selection, f: Renaming, a: Engine, b: Engine, s: string, d: Side) returns (f1: Renaming)
    requires Mirrors(p, f, a, b)
    ensures f1 == f[Slot(s, d, a.nextNode) := b.nextNode]
    ensures Mirrors(p, f1, a.(nextNode := a.nextNode + 1), b.(nextNode := b.nextNode + 1))
  {
    f1 := f[Slot(s, d, a.nextNode) := b.nextNode];
    assert forall x :: x in f ==> x in f1 && f1[x] == f[x];
    forall s | s in b.books
      ensures SameBook(f1, s, a.books[s], b.books[s])
    {
      assert SameBook(f, s, a.books[s], b.books[s]);
    }
  }

  lemma {:induction false} RestSame(p: Selection, f: Renaming, a: Engine, b: Engine, cmd: AddOrder, remaining: int) returns (f1: Renaming)
    requires Mirrors(p, f, a, b) && p(cmd.symbol)
    ensures Mirrors(p, f1, Rest(a, cmd, remaining), Rest(b, cmd, remaining))
  {
    hide Insert, SameSide, SameIndex, Injective;
    f1 := Extend(p, f, a, b, cmd.symbol, cmd.side);
    var a1, b1 := a.(nextNode := a.nextNode + 1), b.(nextNode := b.nextNode + 1);
    BookForSame(p, f1, a1, b1, cmd.symbol);
    var l, l' := BookFor(a, cmd.symbol).Of(cmd.side), BookFor(b, cmd.symbol).Of(cmd.side);
    var o := RestingOrder(cmd.symbol, cmd.orderId, cmd.participant, cmd.side, cmd.price, remaining, a.sequence, a.nextNode);
    var o' := o.(entered := b.sequence, node := b.nextNode);
    InsertSame(f1, cmd.symbol, cmd.side, l, l', o, o');
    SetSideSame(p, f1, a1, b1, cmd.symbol, cmd.side, Insert(cmd.side, l, o), Insert(cmd.side, l', o'));
    OneMoreEntry(p, f1, a.index, b.index, cmd.orderId, Location(cmd.symbol, cmd.side, cmd.price, a.nextNode),
                 Location(cmd.symbol, cmd.side, cmd.price, b.nextNode));
  }

  lemma {:induction false} OneMoreEntry(p: Selection, f: Renaming, a: map<int, Location>, b: map<int, Location>, id: int,
                                      x: Location, y: Location)
    requires SameIndex(p, f, a, b) && SameLocation(f, x, y) && p(x.symbol)
    ensures SameIndex(p, f, a[id := x], b[id := y])
  {
  }

  lemma {:induction false} RestChecked(p: Selection, f: Renaming, a: Engine, b: Engine, cmd: AddOrder, remaining: int)
      returns (f1: Renaming)
    requires Mirrors(p, f, a, b) && p(cmd.symbol)
    ensures Mirrors(p, f1, Rest(a, cmd, remaining), Rest(b, cmd, remaining))
    ensures Crossed(BookFor(Rest(a, cmd, remaining), cmd.symbol)) <==> Crossed(BookFor(Rest(b, cmd, remaining), cmd.symbol))
  {
    f1 := RestSame(p, f, a, b, cmd, remaining);
    BookForSame(p, f1, Rest(a, cmd, remaining), Rest(b, cmd, remaining), cmd.symbol);
    CrossedSame(f1, cmd.symbol, BookFor(Rest(a, cmd, remaining), cmd.symbol), BookFor(Rest(b, cmd, remaining), cmd.symbol));
  }

  lemma {:induction false} Renumber(p: Selection, f: Renaming, a: Engine, b: Engine, x: int, y: int)
    requires Mirrors(p, f, a, b)
    ensures Mirrors(p, f, a.(sequence := x), b.(sequence := y))
  {
  }

  lemma {:induction false} RestRemainderSame(p: Selection, f: Renaming, a: Engine, b: Engine, cmd: AddOrder, m: Matching, m': Matching)
      returns (f1: Renaming)
    requires Mirrors(p, f, a, b) && p(cmd.symbol)
    requires m.remaining == m'.remaining && m.events == m'.events && m.trades == m'.trades
    ensures Mirrors(p, f1, RestRemainder(a, cmd, m).engine, RestRemainder(b, cmd, m').engine)
    ensures SameAnswer(RestRemainder(a, cmd, m), RestRemainder(b, cmd, m'))
  {
    f1 := RestChecked(p, f, a, b, cmd, m.remaining);
    Renumber(p, f1, Rest(a, cmd, m.remaining), Rest(b, cmd, m.remaining), a.sequence + 1, b.sequence + 1);
  }

  lemma {:induction false} SettleSame(p: Selection, f: Renaming, a: Engine, b: Engine, cmd: AddOrder, m: Matching, m': Matching)
      returns (f1: Renaming)
    requires p(cmd.symbol) && SameMatching(p, f, cmd, m, m')
    requires Mirrors(p, f, During(a, cmd, m), During(b, cmd, m'))
    ensures Mirrors(p, f1, Settle(a, cmd, m).engine, Settle(b, cmd, m').engine)
    ensures SameAnswer(Settle(a, cmd, m), Settle(b, cmd, m'))
  {
    hide Mirrors, SameSide, SameIndex, RestRemainder;
    var a1, b1 := During(a, cmd, m), During(b, cmd, m');
    if m.Active() && cmd.tif == Gtc {
      var a2, b2 := a1.(sequence := a.sequence + |m.events|), b1.(sequence := b.sequence + |m.events|);
      Renumber(p, f, a1, b1, a2.sequence, b2.sequence);
      f1 := RestRemainderSame(p, f, a2, b2, cmd, m, m');
      assert Settle(a, cmd, m) == RestRemainder(a2, cmd, m);
      assert Settle(b, cmd, m') == RestRemainder(b2, cmd, m');
    } else {
      f1 := f;
      var a2, b2 := Settle(a, cmd, m).engine, Settle(b, cmd, m').engine;
      Renumber(p, f, a1, b1, a2.sequence, b2.sequence);
      assert a2 == a1.(sequence := a2.sequence) && b2 == b1.(sequence := b2.sequence);
    }
  }

  lemma {:induction false} CrossedSame(f: Renaming, s: string, a: Book, b: Book)
    requires SameBook(f, s, a, b)
    ensures Crossed(a) <==> Crossed(b)
  {
    if a.bids != [] && a.asks != [] {
      assert SameOrder(f, s, Buy, a.bids[0], b.bids[0]) && SameOrder(f, s, Sell, a.asks[0], b.asks[0]);
    }
  }

  lemma {:induction false} DuringSame(p: Selection, f: Renaming, a: Engine, b: Engine, cmd: AddOrder, m: Matching, m': Matching)
    requires Mirrors(p, f, a, b) && p(cmd.symbol) && SameMatching(p, f, cmd, m, m')
    ensures Mirrors(p, f, During(a, cmd, m), During(b, cmd, m'))
  {
    SetSideSame(p, f, a, b, cmd.symbol, Opposite(cmd.side), m.opposite, m'.opposite);
  }

  lemma {:induction false} AddSame(p: Selection, f: Renaming, a: Engine, b: Engine, cmd: AddOrder) returns (f1: Renaming)
    requires Mirrors(p, f, a, b) && p(cmd.symbol)
    ensures Mirrors(p, f1, SpecAdd(a, cmd).engine, SpecAdd(b, cmd).engine)
    ensures SameAnswer(SpecAdd(a, cmd), SpecAdd(b, cmd))
  {
    var opp := Opposite(cmd.side);
    BookForSame(p, f, a, b, cmd.symbol);
    AvailableSame(f, cmd.symbol, opp, BookFor(a, cmd.symbol).Of(opp), BookFor(b, cmd.symbol).Of(opp), cmd.price);
    if FokRejected(a, cmd) {
      f1 := f;
      SetSideSame(p, f, a, b, cmd.symbol, Buy, BookFor(a, cmd.symbol).bids, BookFor(b, cmd.symbol).bids);
      assert BookFor(a, cmd.symbol).With(Buy, BookFor(a, cmd.symbol).bids) == BookFor(a, cmd.symbol);
      assert BookFor(b, cmd.symbol).With(Buy, BookFor(b, cmd.symbol).bids) == BookFor(b, cmd.symbol);
    } else {
      var m, m' := Match(cmd, StartMatching(a, cmd)), Match(cmd, StartMatching(b, cmd));
      MatchSame(p, f, cmd, StartMatching(a, cmd), StartMatching(b, cmd));
      DuringSame(p, f, a, b, cmd, m, m');
      f1 := SettleSame(p, f, a, b, cmd, m, m');
    }
  }

  lemma {:induction false} CancelSame(p: Selection, f: Renaming, a: Engine, b: Engine, cmd: CancelOrder)
    requires Mirrors(p, f, a, b)
    requires cmd.orderId in a.index ==> p(a.index[cmd.orderId].symbol)
    ensures Mirrors(p, f, SpecCancel(a, cmd).engine, SpecCancel(b, cmd).engine)
    ensures SameAnswer(SpecCancel(a, cmd), SpecCancel(b, cmd))
  {
    if cmd.orderId in a.index {
      var loc := a.index[cmd.orderId];
      assert SameLocation(f, loc, b.index[cmd.orderId]);
      BookForSame(p, f, a, b, loc.symbol);
      var l, l' := BookFor(a, loc.symbol).Of(loc.side), BookFor(b, loc.symbol).Of(loc.side);
      LookupSame(f, loc.symbol, loc.side, l, l', loc.node);
      SetSideSame(p, f, a, b, loc.symbol, loc.side, Remove(l, loc.node), Remove(l', b.index[cmd.orderId].node));
    }
  }

  /** The command is about symbols that `p` selects, as far as `a` can tell. */
  predicate Addressed(p: Selection, a: Engine, command: Command) {
    && p(SymbolOf(command))
    && (!command.Add? && OrderIdOf(command) in a.index ==> p(a.index[OrderIdOf(command)].symbol))
  }

  /** One command: same events, same trades, and the engines still mirror each other. */
  lemma {:induction false} StepSame(p: Selection, f: Renaming, a: Engine, b: Engine, command: Command) returns (f1: Renaming)
    requires Mirrors(p, f, a, b) && Addressed(p, a, command)
    ensures Mirrors(p, f1, Step(a, command).engine, Step(b, command).engine)
    ensures SameAnswer(Step(a, command), Step(b, command))
  {
    f1 := f;
    match command
    case Add(c) => f1 := AddSame(p, f, a, b, c);
    case Cancel(c) => CancelSame(p, f, a, b, c);
    case Replace(c) =>
      var cancel := CancelOrder(c.symbol, c.orderId);
      CancelSame(p, f, a, b, cancel);
      if c.orderId in a.index {
        var loc := a.index[c.orderId];
        assert SameLocation(f, loc, b.index[c.orderId]);
        BookForSame(p, f, a, b, loc.symbol);
        LookupSame(f, loc.symbol, loc.side, BookFor(a, loc.symbol).Of(loc.side), BookFor(b, loc.symbol).Of(loc.side), loc.node);
        if Located(a.books, loc).Some? {
          var add := Replacement(c, Located(a.books, loc).value.participant, loc.side);
          f1 := AddSame(p, f, SpecCancel(a, cancel).engine, SpecCancel(b, cancel).engine, add);
        }
      }
  }

  /** Events are numbered without gaps, so equal payloads differ only by where numbering starts. */
  lemma {:induction false} StepNumbers(e: Engine, command: Command)
    ensures Step(e, command).engine.sequence == e.sequence + |Step(e, command).events|
  {
  }

  function All(symbol: string): bool {
    true
  }

  /** Whole engines that mirror each other and have reached the same event number
      give identical numbered replies to every later command sequence. */
  lemma {:induction false} RunSame(f: Renaming, a: Engine, b: Engine, commands: seq<Command>)
    requires Mirrors(All, f, a, b) && a.sequence == b.sequence
    ensures Replies(a, commands) == Replies(b, commands)
    decreases |commands|
  {
    if commands != [] {
      var f1 := StepSame(All, f, a, b, commands[0]);
      StepNumbers(a, commands[0]);
      StepNumbers(b, commands[0]);
      RunSame(f1, Step(a, commands[0]).engine, Step(b, commands[0]).engine, commands[1..]);
    }
  }
}
