/** Log records and snapshots as data: each is read back as what was written, and
    every number in them stays a 64-bit one. */
module Records {
  import opened Orders
  import opened EngineSpec
  import opened EngineInvariants
  import opened MatchingLaws
  import opened JsonValue
  import opened JsonLaws
  import opened Snapshot
  import opened ShardedSpec

  // ---------------------------------------------------------------- records read back

  lemma {:induction false} StringAtIs(members: seq<Member>, k: nat, key: string)
    requires k < |members| && members[k].key == key && members[k].value.String?
    requires forall i :: 0 <= i < k ==> members[i].key != key
    ensures StringAt(members, key) == members[k].value.text
  {
    FindAt(members, k, key);
  }

  lemma {:induction false} IntAtIs(members: seq<Member>, k: nat, key: string)
    requires k < |members| && members[k].key == key && members[k].value.Int?
    requires forall i :: 0 <= i < k ==> members[i].key != key
    ensures IntAt(members, key) == members[k].value.number
  {
    FindAt(members, k, key);
  }

  lemma {:induction false} EnumsReadBack(side: Side, tif: TimeInForce, stp: SelfTradePrevention)
    ensures SideText(side) == "BUY" <==> side == Buy
    ensures TifFrom(TifText(tif)) == tif
    ensures StpFrom(StpText(stp)) == stp
  {
    assert |"BUY"| == 3 && |"SELL"| == 4 && |"MARKET"| == 6 && |"NONE"| == 4;
    assert "GTC"[0] == 'G' && "IOC"[0] == 'I' && "FOK"[0] == 'F';
    assert |"CANCEL_AGGRESSOR"| == 16 && |"CANCEL_PASSIVE"| == 14 && |"CANCEL_BOTH"| == 11;
  }

  lemma {:induction false} AddKeys()
    ensures |"symbol"| == 6 && |"order_id"| == 8 && |"participant_id"| == 14 && |"side"| == 4
    ensures |"price_ticks"| == 11 && |"quantity"| == 8 && |"time_in_force"| == 13 && |"stp"| == 3
    ensures "order_id"[0] == 'o' && "quantity"[0] == 'q'
  {
  }

  lemma {:induction false} AddReadsBackA(c: AddOrder)
    ensures var m := AddMembers(c);
            && StringAt(m, "symbol") == c.symbol && IntAt(m, "order_id") == c.orderId
            && StringAt(m, "participant_id") == c.participant && StringAt(m, "side") == SideText(c.side)
  {
    hide SideText, TifText, StpText, StringAt, IntAt;
    var m := AddMembers(c);
    AddKeys();
    StringAtIs(m, 0, "symbol");
    IntAtIs(m, 1, "order_id");
    StringAtIs(m, 2, "participant_id");
    StringAtIs(m, 3, "side");
  }

  lemma {:induction false} AddReadsBackB(c: AddOrder)
    ensures var m := AddMembers(c);
            && IntAt(m, "price_ticks") == c.price && IntAt(m, "quantity") == c.quantity
            && StringAt(m, "time_in_force") == TifText(c.tif) && StringAt(m, "stp") == StpText(c.stp)
  {
    hide SideText, TifText, StpText, StringAt, IntAt;
    var m := AddMembers(c);
    AddKeys();
    IntAtIs(m, 4, "price_ticks");
    IntAtIs(m, 5, "quantity");
    StringAtIs(m, 6, "time_in_force");
    StringAtIs(m, 7, "stp");
  }

  lemma {:induction false} CancelReadsBack(c: CancelOrder)
    ensures var m := CancelMembers(c); StringAt(m, "symbol") == c.symbol && IntAt(m, "order_id") == c.orderId
  {
    hide StringAt, IntAt;
    AddKeys();
    StringAtIs(CancelMembers(c), 0, "symbol");
    IntAtIs(CancelMembers(c), 1, "order_id");
  }

  lemma {:induction false} ReplaceReadsBack(c: ReplaceOrder)
    ensures var m := ReplaceMembers(c);
            && StringAt(m, "symbol") == c.symbol && IntAt(m, "order_id") == c.orderId
            && IntAt(m, "new_order_id") == c.newOrderId && IntAt(m, "new_price_ticks") == c.newPrice
            && IntAt(m, "new_quantity") == c.newQuantity && StringAt(m, "time_in_force") == TifText(c.tif)
  {
    hide TifText, StringAt, IntAt;
    var m := ReplaceMembers(c);
    AddKeys();
    assert |"new_order_id"| == 12 && |"new_price_ticks"| == 15 && |"new_quantity"| == 12;
    assert "new_order_id"[4] == 'o' && "new_quantity"[4] == 'q';
    StringAtIs(m, 0, "symbol");
    IntAtIs(m, 1, "order_id");
    IntAtIs(m, 2, "new_order_id");
    IntAtIs(m, 3, "new_price_ticks");
    IntAtIs(m, 4, "new_quantity");
    StringAtIs(m, 5, "time_in_force");
  }

  lemma {:induction false} Envelope(tag: string, members: seq<Member>, more: seq<Member>)
    ensures var record := Object([Member("type", String(tag)), Member("command", Object(members))] + more);
            record.Find("type") == Some(String(tag)) && record.Find("command") == Some(Object(members))
  {
    assert |"type"| == 4 && |"command"| == 7;
    var all := [Member("type", String(tag)), Member("command", Object(members))] + more;
    FindAt(all, 0, "type");
    FindAt(all, 1, "command");
  }

  /** A logged command is read back as itself. */
  lemma {:induction false} CommandReadsBack(command: Command)
    ensures DecodeRecord(CommandRecord(command)) == Apply(command)
  {
    hide AddMembers, CancelMembers, ReplaceMembers, StringAt, IntAt, TifText, TifFrom, StpText, StpFrom, SideText;
    var members := CommandMembers(command);
    Envelope(Tag(command), members, []);
    assert [Member("type", String(Tag(command))), Member("command", Object(members))] + []
        == [Member("type", String(Tag(command))), Member("command", Object(members))];
    assert |"add"| == 3 && |"cancel"| == 6 && |"replace"| == 7;
    match command
    case Add(c) =>
      AddReadsBackA(c);
      AddReadsBackB(c);
      EnumsReadBack(c.side, c.tif, c.stp);
    case Cancel(c) => CancelReadsBack(c);
    case Replace(c) =>
      ReplaceReadsBack(c);
      EnumsReadBack(Buy, c.tif, Allow);
  }

  /** A logged risk reject is passed over. */
  lemma {:induction false} RiskReadsBack(cmd: AddOrder, reason: string)
    ensures DecodeRecord(RiskRecord(cmd, reason)) == Ignored
  {
    hide AddMembers;
    var more := [Member("reason", String(reason))];
    Envelope("risk_reject", AddMembers(cmd), more);
    assert RiskRecord(cmd, reason).members ==
           [Member("type", String("risk_reject")), Member("command", Object(AddMembers(cmd)))] + more;
    assert |"risk_reject"| == 11 && |"add"| == 3 && |"cancel"| == 6 && |"replace"| == 7;
  }

  // ---------------------------------------------------------------- everything fits 64 bits

  lemma {:induction false} AddMembersFit(c: AddOrder)
    requires CommandFits(Add(c))
    ensures Fits(Object(AddMembers(c)))
  {
    hide SideText, TifText, StpText;
    var m := AddMembers(c);
    assert Fits(m[0].value) && Fits(m[1].value) && Fits(m[2].value) && Fits(m[3].value);
    assert Fits(m[4].value) && Fits(m[5].value) && Fits(m[6].value) && Fits(m[7].value);
  }

  lemma {:induction false} MembersFit(command: Command)
    requires CommandFits(command)
    ensures Fits(Object(CommandMembers(command)))
  {
    hide TifText, AddMembers;
    match command
    case Add(c) => AddMembersFit(c);
    case Cancel(c) =>
      var m := CancelMembers(c);
      assert Fits(m[0].value) && Fits(m[1].value);
    case Replace(c) =>
      var m := ReplaceMembers(c);
      assert Fits(m[0].value) && Fits(m[1].value) && Fits(m[2].value) && Fits(m[3].value) && Fits(m[4].value) && Fits(m[5].value);
  }

  lemma {:induction false} CommandRecordFits(command: Command)
    requires CommandFits(command)
    ensures Fits(CommandRecord(command))
  {
    hide CommandMembers;
    MembersFit(command);
  }

  lemma {:induction false} RiskRecordFits(c: AddOrder, reason: string)
    requires CommandFits(Add(c))
    ensures Fits(RiskRecord(c, reason))
  {
    hide AddMembers;
    AddMembersFit(c);
  }

  predicate SideFits(orders: seq<RestingOrder>) {
    forall i :: 0 <= i < |orders| ==> Fits64(orders[i].orderId) && Fits64(orders[i].price) && Fits64(orders[i].remaining)
  }

  predicate BooksFit(books: map<string, Book>) {
    forall s :: s in books ==> SideFits(books[s].bids) && SideFits(books[s].asks)
  }

  lemma {:induction false} OrdersJsonFits(orders: seq<RestingOrder>)
    requires SideFits(orders)
    ensures forall i :: 0 <= i < |OrdersJson(orders)| ==> Fits(OrdersJson(orders)[i])
    decreases |orders|
  {
    if orders != [] {
      var m := OrderJson(orders[0]).members;
      assert Fits(m[0].value) && Fits(m[1].value) && Fits(m[2].value);
      OrdersJsonFits(orders[1..]);
    }
  }

  lemma {:induction false} LevelJsonFits(price: int, orders: seq<RestingOrder>)
    requires Fits64(price) && SideFits(orders)
    ensures Fits(LevelJson(price, orders))
  {
    hide OrdersJson;
    OrdersJsonFits(orders);
    var m := LevelJson(price, orders).members;
    assert Fits(m[0].value) && Fits(m[1].value);
  }

  lemma {:induction false} SideJsonFits(orders: seq<RestingOrder>)
    requires SideFits(orders)
    ensures forall i :: 0 <= i < |SideJson(orders)| ==> Fits(SideJson(orders)[i])
    decreases |orders|
  {
    hide LevelJson, RunLength, Fits;
    if orders != [] {
      var k := RunLength(orders);
      LevelJsonFits(orders[0].price, orders[..k]);
      SideJsonFits(orders[k..]);
    }
  }

  lemma {:induction false} BookJsonFits(b: Book)
    requires SideFits(b.bids) && SideFits(b.asks)
    ensures Fits(BookJson(b))
  {
    hide SideJson;
    SideJsonFits(b.bids);
    SideJsonFits(b.asks);
    var m := BookJson(b).members;
    assert Fits(m[0].value) && Fits(m[1].value);
  }

  lemma {:induction false} BooksJsonFits(books: map<string, Book>, names: seq<string>)
    requires BooksFit(books) && forall i :: 0 <= i < |names| ==> names[i] in books
    ensures forall i :: 0 <= i < |BooksJson(books, names)| ==> Fits(BooksJson(books, names)[i].value)
    decreases |names|
  {
    hide BookJson, Fits;
    if names != [] {
      BookJsonFits(books[names[0]]);
      BooksJsonFits(books, names[1..]);
    }
  }

  lemma {:induction false} SnapshotFits(e: Engine, names: seq<string>)
    requires Enumerates(names, e.books) && BooksFit(e.books) && Fits64(e.sequence)
    ensures Fits(SnapshotJson(e, names))
  {
    hide BooksJson;
    BooksJsonFits(e.books, names);
    var m := SnapshotJson(e, names).members;
    assert Fits(m[0].value) && Fits(m[1].value);
  }

  lemma {:induction false} SetSideFits(e: Engine, symbol: string, side: Side, orders: seq<RestingOrder>)
    requires BooksFit(e.books) && SideFits(orders)
    ensures BooksFit(SetSide(e, symbol, side, orders).books)
  {
    hide SideFits;
    assert SideFits([]) by { EmptyFits(); }
  }

  lemma {:induction false} EmptyFits()
    ensures SideFits([])
  {
  }

  lemma {:induction false} BookForFits(e: Engine, symbol: string)
    requires BooksFit(e.books)
    ensures SideFits(BookFor(e, symbol).bids) && SideFits(BookFor(e, symbol).asks)
  {
  }

  lemma {:induction false} MatchFits(e: Engine, cmd: AddOrder)
    requires WellFormed(e) && BooksFit(e.books)
    ensures SideFits(Match(cmd, StartMatching(e, cmd)).opposite)
  {
    hide WellFormed, Match, Tradable, TradesFor;
    var m := StartMatching(e, cmd);
    StartTradable(e, cmd);
    BookForFits(e, cmd.symbol);
    var k, cut, stopped := PriorityWalk(cmd, m);
    var orders, left := m.opposite, Match(cmd, m).opposite;
    assert Fits64(0);
    forall i | 0 <= i < |left|
      ensures Fits64(left[i].orderId) && Fits64(left[i].price) && Fits64(left[i].remaining)
    {
      assert Fits64(orders[k + i].orderId) && Fits64(orders[k + i].price) && Fits64(orders[k + i].remaining);
    }
  }

  lemma {:induction false} RestFits(e: Engine, cmd: AddOrder, remaining: int)
    requires BooksFit(e.books) && CommandFits(Add(cmd)) && 0 < remaining <= cmd.quantity
    ensures BooksFit(Rest(e, cmd, remaining).books)
  {
    hide BooksFit, Insert;
    BookForFits(e, cmd.symbol);
    var orders := BookFor(e, cmd.symbol).Of(cmd.side);
    var o := RestingOrder(cmd.symbol, cmd.orderId, cmd.participant, cmd.side, cmd.price, remaining, e.sequence, e.nextNode);
    var k := InsertAt(cmd.side, orders, o);
    SetSideFits(e, cmd.symbol, cmd.side, Insert(cmd.side, orders, o));
  }

  lemma {:induction false} SettleFits(e: Engine, cmd: AddOrder, m: Matching)
    requires BooksFit(e.books) && SideFits(m.opposite) && CommandFits(Add(cmd))
    requires m.Active() ==> m.remaining <= cmd.quantity
    ensures BooksFit(Settle(e, cmd, m).engine.books)
  {
    hide BooksFit, SideFits, Rest, CommandFits;
    SetSideFits(e, cmd.symbol, Opposite(cmd.side), m.opposite);
    if m.Active() && cmd.tif == Gtc {
      RestFits(During(e, cmd, m).(sequence := e.sequence + |m.events|), cmd, m.remaining);
    }
  }

  lemma {:induction false} MatchShrinks(e: Engine, cmd: AddOrder)
    requires WellFormed(e)
    ensures var m := Match(cmd, StartMatching(e, cmd)); m.Active() ==> m.remaining <= cmd.quantity
  {
    hide WellFormed, TradesFor, Tradable;
    StartTradable(e, cmd);
    var k, cut, stopped := PriorityWalk(cmd, StartMatching(e, cmd));
    if cmd.quantity < 0 {
      assert Done(cmd, StartMatching(e, cmd));
    }
  }

  lemma {:induction false} AddFits(e: Engine, cmd: AddOrder)
    requires WellFormed(e) && BooksFit(e.books) && CommandFits(Add(cmd))
    ensures BooksFit(SpecAdd(e, cmd).engine.books)
  {
    hide WellFormed, BooksFit, SideFits, Match, Settle, CommandFits, FokRejected;
    if FokRejected(e, cmd) {
      BookForFits(e, cmd.symbol);
      OpenFits(e, cmd.symbol);
    } else {
      MatchFits(e, cmd);
      MatchShrinks(e, cmd);
      SettleFits(e, cmd, Match(cmd, StartMatching(e, cmd)));
    }
  }

  lemma {:induction false} OpenFits(e: Engine, symbol: string)
    requires BooksFit(e.books)
    ensures BooksFit(e.books[symbol := BookFor(e, symbol)])
  {
  }

  lemma {:induction false} CancelFits(e: Engine, cmd: CancelOrder)
    requires WellFormed(e) && BooksFit(e.books)
    ensures BooksFit(SpecCancel(e, cmd).engine.books)
  {
    hide WellFormed, BooksFit, Lookup, Remove;
    if cmd.orderId in e.index {
      var loc := e.index[cmd.orderId];
      var k := Pointed(e, cmd.orderId);
      BookForFits(e, loc.symbol);
      var orders := BookFor(e, loc.symbol).Of(loc.side);
      assert SideFits(orders[..k] + orders[k + 1..]);
      SetSideFits(e, loc.symbol, loc.side, orders[..k] + orders[k + 1..]);
    }
  }

  lemma {:induction false} StepFits(e: Engine, command: Command)
    requires WellFormed(e) && BooksFit(e.books) && CommandFits(command)
    ensures BooksFit(Step(e, command).engine.books)
  {
    hide WellFormed, BooksFit, SpecAdd, SpecCancel;
    match command
    case Add(c) => AddFits(e, c);
    case Cancel(c) => CancelFits(e, c);
    case Replace(c) =>
      var cancel := CancelOrder(c.symbol, c.orderId);
      CancelFits(e, cancel);
      CancelOk(e, cancel);
      if c.orderId in e.index {
        var loc := e.index[c.orderId];
        var k := Pointed(e, c.orderId);
        AddFits(SpecCancel(e, cancel).engine, Replacement(c, Located(e.books, loc).value.participant, loc.side));
      }
  }
}
