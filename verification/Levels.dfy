/** The books as the engine stores them: per side an ordered map from price to a
    first-in-first-out level, kept here as the sequence of its entries in
    ascending key order. */
module Levels {
  import opened Orders
  import opened EngineSpec
  import opened EngineInvariants
  import opened Snapshot

  datatype Level = Level(price: int, orders: seq<RestingOrder>)

  datatype LevelBook = LevelBook(bids: seq<Level>, asks: seq<Level>) {
    function Of(side: Side): seq<Level> {
      if side == Buy then bids else asks
    }

    function With(side: Side, levels: seq<Level>): LevelBook {
      if side == Buy then this.(bids := levels) else this.(asks := levels)
    }
  }

  /** No empty level, every order under its own price. */
  predicate LevelOk(level: Level) {
    && level.orders != []
    && forall i :: 0 <= i < |level.orders| ==> level.orders[i].price == level.price
  }

  predicate LevelsOk(levels: seq<Level>) {
    && (forall i :: 0 <= i < |levels| ==> LevelOk(levels[i]))
    && (forall i, j :: 0 <= i < j < |levels| ==> levels[i].price < levels[j].price)
  }

  /** The best level is the first ask or the last bid. */
  function BestIndex(side: Side, levels: seq<Level>): (i: nat)
    requires levels != []
    ensures i < |levels|
  {
    if side == Buy then |levels| - 1 else 0
  }

  function EraseAt(levels: seq<Level>, i: nat): (r: seq<Level>)
    requires i < |levels|
    ensures |r| == |levels| - 1
  {
    levels[..i] + levels[i + 1..]
  }

  /** The side as one list in priority order. */
  function Flatten(side: Side, levels: seq<Level>): seq<RestingOrder>
    decreases |levels|
  {
    if levels == [] then [] else
    var i := BestIndex(side, levels);
    levels[i].orders + Flatten(side, EraseAt(levels, i))
  }

  function FlattenBook(b: LevelBook): Book {
    Book(Flatten(Buy, b.bids), Flatten(Sell, b.asks))
  }

  lemma {:induction false} EraseOk(levels: seq<Level>, i: nat)
    requires LevelsOk(levels) && i < |levels|
    ensures LevelsOk(EraseAt(levels, i))
  {
    var r := EraseAt(levels, i);
    assert forall j :: 0 <= j < |r| ==> r[j] == levels[if j < i then j else j + 1];
  }

  // ---------------------------------------------------------------- flattening splits at any price

  /** The two halves of a side, better half first. */
  lemma {:induction false} FlattenConcat(side: Side, low: seq<Level>, high: seq<Level>)
    ensures Flatten(side, low + high) ==
            if side == Buy then Flatten(side, high) + Flatten(side, low) else Flatten(side, low) + Flatten(side, high)
    decreases |low| + |high|
  {
    var all := low + high;
    if side == Buy && high != [] {
      var n := |high| - 1;
      assert EraseAt(all, |all| - 1) == low + high[..n] && EraseAt(high, n) == high[..n];
      FlattenConcat(side, low, high[..n]);
      assert Flatten(side, all) == high[n].orders + (Flatten(side, high[..n]) + Flatten(side, low));
    } else if side == Sell && low != [] {
      assert EraseAt(all, 0) == low[1..] + high && EraseAt(low, 0) == low[1..];
      FlattenConcat(side, low[1..], high);
      assert Flatten(side, all) == low[0].orders + (Flatten(side, low[1..]) + Flatten(side, high));
    } else {
      assert all == if side == Buy then low else high;
    }
  }

  lemma {:induction false} FlattenOne(side: Side, level: Level)
    ensures Flatten(side, [level]) == level.orders
  {
    assert EraseAt([level], BestIndex(side, [level])) == [];
  }

  function BetterPart(side: Side, low: seq<Level>, high: seq<Level>): seq<RestingOrder> {
    if side == Buy then Flatten(side, high) else Flatten(side, low)
  }

  function WorsePart(side: Side, low: seq<Level>, high: seq<Level>): seq<RestingOrder> {
    if side == Buy then Flatten(side, low) else Flatten(side, high)
  }

  lemma {:induction false} FlattenAround(side: Side, low: seq<Level>, mid: Level, high: seq<Level>)
    ensures Flatten(side, low + [mid] + high) == BetterPart(side, low, high) + mid.orders + WorsePart(side, low, high)
  {
    FlattenConcat(side, low + [mid], high);
    FlattenConcat(side, low, [mid]);
    FlattenOne(side, mid);
  }

  /** Every order in the flattened side stands at the price of some level. */
  lemma {:induction false} FlattenPrices(side: Side, levels: seq<Level>, i: nat) returns (k: nat)
    requires forall j :: 0 <= j < |levels| ==> LevelOk(levels[j])
    requires i < |Flatten(side, levels)|
    ensures k < |levels| && levels[k].price == Flatten(side, levels)[i].price
    decreases |levels|
  {
    var b := BestIndex(side, levels);
    if i < |levels[b].orders| {
      k := b;
    } else {
      var rest := EraseAt(levels, b);
      assert forall j :: 0 <= j < |rest| ==> rest[j] == levels[if j < b then j else j + 1];
      var j := FlattenPrices(side, rest, i - |levels[b].orders|);
      k := if j < b then j else j + 1;
    }
  }

  /** Levels split around a price: `low` below it, `high` above it. */
  predicate Around(price: int, low: seq<Level>, high: seq<Level>) {
    && (forall i :: 0 <= i < |low| ==> LevelOk(low[i]) && low[i].price < price)
    && (forall i :: 0 <= i < |high| ==> LevelOk(high[i]) && price < high[i].price)
  }

  lemma {:induction false} AroundPrices(side: Side, price: int, low: seq<Level>, high: seq<Level>)
    requires Around(price, low, high)
    ensures forall i :: 0 <= i < |BetterPart(side, low, high)| ==> Better(side, BetterPart(side, low, high)[i].price, price)
    ensures forall i :: 0 <= i < |WorsePart(side, low, high)| ==> Better(side, price, WorsePart(side, low, high)[i].price)
  {
    forall i | 0 <= i < |Flatten(side, low)|
      ensures Flatten(side, low)[i].price < price
    {
      var k := FlattenPrices(side, low, i);
    }
    forall i | 0 <= i < |Flatten(side, high)|
      ensures price < Flatten(side, high)[i].price
    {
      var k := FlattenPrices(side, high, i);
    }
  }

  // ---------------------------------------------------------------- inserting

  lemma {:induction false} InsertSkip(side: Side, a: seq<RestingOrder>, b: seq<RestingOrder>, o: RestingOrder)
    requires forall i :: 0 <= i < |a| ==> !Better(side, o.price, a[i].price)
    requires b != [] ==> Better(side, o.price, b[0].price)
    ensures Insert(side, a + b, o) == a + [o] + b
  {
    hide Better;
    if a == [] {
      assert a + b == b && a + [o] + b == [o] + b;
    } else {
      assert (a + b)[1..] == a[1..] + b;
      InsertSkip(side, a[1..], b, o);
      assert [a[0]] + (a[1..] + [o] + b) == a + [o] + b;
    }
  }

  /** A new order joins the back of its level. */
  lemma {:induction false} PutBehind(side: Side, low: seq<Level>, orders: seq<RestingOrder>, high: seq<Level>, o: RestingOrder)
    requires Around(o.price, low, high)
    requires forall i :: 0 <= i < |orders| ==> orders[i].price == o.price
    ensures Flatten(side, low + [Level(o.price, orders + [o])] + high)
            == Insert(side, Flatten(side, low + [Level(o.price, orders)] + high), o)
  {
    var before, after := BetterPart(side, low, high), WorsePart(side, low, high);
    AroundPrices(side, o.price, low, high);
    FlattenAround(side, low, Level(o.price, orders + [o]), high);
    FlattenAround(side, low, Level(o.price, orders), high);
    InsertSkip(side, before + orders, after, o);
    assert before + (orders + [o]) + after == before + orders + [o] + after;
  }

  /** A new order opens a level of its own. */
  lemma {:induction false} PutNew(side: Side, low: seq<Level>, high: seq<Level>, o: RestingOrder)
    requires Around(o.price, low, high)
    ensures Flatten(side, low + [Level(o.price, [o])] + high) == Insert(side, Flatten(side, low + high), o)
  {
    AroundPrices(side, o.price, low, high);
    FlattenAround(side, low, Level(o.price, [o]), high);
    FlattenConcat(side, low, high);
    InsertSkip(side, BetterPart(side, low, high), WorsePart(side, low, high), o);
  }

  // ---------------------------------------------------------------- removing

  lemma {:induction false} LookupConcat(a: seq<RestingOrder>, b: seq<RestingOrder>, node: nat)
    ensures Lookup(a + b, node) == if Lookup(a, node).Some? then Lookup(a, node) else Lookup(b, node)
  {
    if a == [] {
      assert a + b == b;
    } else {
      assert (a + b)[1..] == a[1..] + b;
      LookupConcat(a[1..], b, node);
    }
  }

  lemma {:induction false} RemoveConcat(a: seq<RestingOrder>, b: seq<RestingOrder>, node: nat)
    ensures Remove(a + b, node) == if Lookup(a, node).Some? then Remove(a, node) + b else a + Remove(b, node)
  {
    if a == [] {
      assert a + b == b && a + Remove(b, node) == Remove(b, node);
    } else {
      assert (a + b)[1..] == a[1..] + b;
      if a[0].node != node {
        RemoveConcat(a[1..], b, node);
        var r := if Lookup(a[1..], node).Some? then Remove(a[1..], node) + b else a[1..] + Remove(b, node);
        assert Remove(a + b, node) == [a[0]] + r;
      }
    }
  }

  /** An order found at `price` is found in the middle part, the only one at that price. */
  lemma {:induction false} FoundInside(before: seq<RestingOrder>, orders: seq<RestingOrder>, after: seq<RestingOrder>, price: int, node: nat)
    requires forall i :: 0 <= i < |before| ==> before[i].price != price
    requires forall i :: 0 <= i < |after| ==> after[i].price != price
    requires Lookup(before + orders + after, node).Some? && Lookup(before + orders + after, node).value.price == price
    ensures Lookup(orders, node) == Lookup(before + orders + after, node)
    ensures Remove(before + orders + after, node) == before + Remove(orders, node) + after
  {
    LookupConcat(before + orders, after, node);
    LookupConcat(before, orders, node);
    if Lookup(before, node).Some? {
      var k := LookupAt(before, node);
    } else if Lookup(orders, node).None? {
      var k := LookupAt(after, node);
    }
    RemoveConcat(before + orders, after, node);
    RemoveConcat(before, orders, node);
  }

  /** A located order is found in its own level, and leaves from there. */
  lemma {:induction false} TakeOut(side: Side, low: seq<Level>, orders: seq<RestingOrder>, high: seq<Level>, price: int, node: nat)
    requires Around(price, low, high)
    requires var flat := Flatten(side, low + [Level(price, orders)] + high);
             Lookup(flat, node).Some? && Lookup(flat, node).value.price == price
    ensures Lookup(orders, node) == Lookup(Flatten(side, low + [Level(price, orders)] + high), node)
    ensures Remove(Flatten(side, low + [Level(price, orders)] + high), node) ==
            if Remove(orders, node) == [] then Flatten(side, low + high)
            else Flatten(side, low + [Level(price, Remove(orders, node))] + high)
  {
    hide Lookup, Remove, Flatten, Around;
    var before, after := BetterPart(side, low, high), WorsePart(side, low, high);
    AroundPrices(side, price, low, high);
    FlattenAround(side, low, Level(price, orders), high);
    FoundInside(before, orders, after, price, node);
    if Remove(orders, node) == [] {
      FlattenConcat(side, low, high);
      assert before + [] + after == before + after;
    } else {
      FlattenAround(side, low, Level(price, Remove(orders, node)), high);
    }
  }

  // ---------------------------------------------------------------- the ordered map's operations

  /** `i` is where `price` belongs: the first level not below it. */
  predicate BoundAt(levels: seq<Level>, price: int, i: nat) {
    && i <= |levels|
    && (forall j :: 0 <= j < i ==> levels[j].price < price)
    && (forall j :: i <= j < |levels| ==> price <= levels[j].price)
  }

  /** Find or create the level at the bound, and queue the order there. */
  function Put(levels: seq<Level>, i: nat, o: RestingOrder): seq<Level>
    requires i <= |levels|
  {
    if i < |levels| && levels[i].price == o.price then levels[i := levels[i].(orders := levels[i].orders + [o])]
    else levels[..i] + [Level(o.price, [o])] + levels[i..]
  }

  lemma {:induction false} AroundBound(levels: seq<Level>, price: int, i: nat, j: nat)
    requires LevelsOk(levels) && BoundAt(levels, price, i) && i <= j <= |levels|
    requires j == if i < |levels| && levels[i].price == price then i + 1 else i
    ensures Around(price, levels[..i], levels[j..])
  {
    forall k | j <= k < |levels|
      ensures price < levels[k].price
    {
      if j == i + 1 {
        assert levels[i].price < levels[k].price;
      }
    }
  }

  lemma {:induction false} PutOk(levels: seq<Level>, i: nat, o: RestingOrder)
    requires LevelsOk(levels) && BoundAt(levels, o.price, i)
    ensures LevelsOk(Put(levels, i, o))
  {
    var r := Put(levels, i, o);
    if i < |levels| && levels[i].price == o.price {
      assert LevelOk(levels[i]);
      assert LevelOk(r[i]);
      assert forall j :: 0 <= j < |r| ==> r[j].price == levels[j].price;
    } else {
      assert forall j :: 0 <= j < |r| ==> r[j] == if j < i then levels[j] else if j == i then Level(o.price, [o]) else levels[j - 1];
    }
  }

  lemma {:induction false} PutJoins(side: Side, levels: seq<Level>, i: nat, o: RestingOrder)
    requires LevelsOk(levels) && BoundAt(levels, o.price, i) && i < |levels| && levels[i].price == o.price
    ensures Flatten(side, Put(levels, i, o)) == Insert(side, Flatten(side, levels), o)
  {
    hide Flatten, Insert;
    var low, high, orders := levels[..i], levels[i + 1..], levels[i].orders;
    AroundBound(levels, o.price, i, i + 1);
    assert LevelOk(levels[i]);
    PutBehind(side, low, orders, high, o);
    assert levels == low + [Level(o.price, orders)] + high;
    assert Put(levels, i, o) == low + [Level(o.price, orders + [o])] + high;
  }

  lemma {:induction false} PutIs(side: Side, levels: seq<Level>, i: nat, o: RestingOrder)
    requires LevelsOk(levels) && BoundAt(levels, o.price, i)
    ensures Flatten(side, Put(levels, i, o)) == Insert(side, Flatten(side, levels), o)
  {
    if i < |levels| && levels[i].price == o.price {
      PutJoins(side, levels, i, o);
    } else {
      AroundBound(levels, o.price, i, i);
      PutNew(side, levels[..i], levels[i..], o);
      assert levels == levels[..i] + levels[i..];
    }
  }

  /** Take a list node out of a level, and the level out of the map once it is empty. */
  function Take(levels: seq<Level>, i: nat, node: nat): seq<Level>
    requires i < |levels|
  {
    var orders := Remove(levels[i].orders, node);
    if orders == [] then EraseAt(levels, i) else levels[i := Level(levels[i].price, orders)]
  }

  lemma {:induction false} TakeOk(levels: seq<Level>, i: nat, node: nat)
    requires LevelsOk(levels) && i < |levels| && Lookup(levels[i].orders, node).Some?
    ensures LevelsOk(Take(levels, i, node))
  {
    var k := LookupAt(levels[i].orders, node);
    EraseOk(levels, i);
    assert LevelOk(levels[i]);
    var r := Take(levels, i, node);
    if Remove(levels[i].orders, node) != [] {
      assert LevelOk(r[i]);
      assert forall j :: 0 <= j < |r| ==> r[j].price == levels[j].price;
    }
  }

  lemma {:induction false} LevelExists(side: Side, levels: seq<Level>, i: nat, price: int, node: nat)
    requires LevelsOk(levels) && BoundAt(levels, price, i)
    requires var o := Lookup(Flatten(side, levels), node); o.Some? && o.value.price == price
    ensures i < |levels| && levels[i].price == price
  {
    var k := LookupAt(Flatten(side, levels), node);
    var l := FlattenPrices(side, levels, k);
  }

  /** Levels cut at position `i`. */
  lemma {:induction false} TakeSplit(levels: seq<Level>, i: nat, node: nat)
    requires i < |levels|
    ensures var low, high, price, orders := levels[..i], levels[i + 1..], levels[i].price, levels[i].orders;
            && levels == low + [Level(price, orders)] + high
            && Take(levels, i, node) ==
               if Remove(orders, node) == [] then low + high else low + [Level(price, Remove(orders, node))] + high
  {
  }

  lemma {:induction false} TakeIs(side: Side, levels: seq<Level>, i: nat, price: int, node: nat)
    requires LevelsOk(levels) && BoundAt(levels, price, i)
    requires var o := Lookup(Flatten(side, levels), node); o.Some? && o.value.price == price
    ensures i < |levels|
    ensures Lookup(levels[i].orders, node) == Lookup(Flatten(side, levels), node)
    ensures Flatten(side, Take(levels, i, node)) == Remove(Flatten(side, levels), node)
  {
    LevelExists(side, levels, i, price, node);
    AroundBound(levels, price, i, i + 1);
    TakeSplit(levels, i, node);
    TakeOut(side, levels[..i], levels[i].orders, levels[i + 1..], price, node);
  }

  // ---------------------------------------------------------------- all books

  function FlattenBooks(books: map<string, LevelBook>): map<string, Book> {
    map s | s in books :: FlattenBook(books[s])
  }

  predicate BooksLevelled(books: map<string, LevelBook>) {
    forall s :: s in books ==> LevelsOk(books[s].bids) && LevelsOk(books[s].asks)
  }

  function LevelsFor(books: map<string, LevelBook>, symbol: string): LevelBook {
    if symbol in books then books[symbol] else LevelBook([], [])
  }

  lemma {:induction false} LevelsForIs(books: map<string, LevelBook>, symbol: string)
    ensures FlattenBook(LevelsFor(books, symbol)) == BookIn(FlattenBooks(books), symbol)
    ensures BooksLevelled(books) ==> LevelsOk(LevelsFor(books, symbol).bids) && LevelsOk(LevelsFor(books, symbol).asks)
  {
  }

  function SetLevels(books: map<string, LevelBook>, symbol: string, side: Side, levels: seq<Level>): map<string, LevelBook> {
    books[symbol := LevelsFor(books, symbol).With(side, levels)]
  }

  lemma {:induction false} SetLevelsIs(books: map<string, LevelBook>, symbol: string, side: Side, levels: seq<Level>)
    ensures FlattenBooks(SetLevels(books, symbol, side, levels)) ==
            FlattenBooks(books)[symbol := BookIn(FlattenBooks(books), symbol).With(side, Flatten(side, levels))]
    ensures BooksLevelled(books) && LevelsOk(levels) ==> BooksLevelled(SetLevels(books, symbol, side, levels))
  {
    hide Flatten, LevelsOk;
    LevelsForIs(books, symbol);
  }

  /** Putting an order into its level is resting it. */
  lemma {:induction false} PutRests(books: map<string, LevelBook>, e: Engine, cmd: AddOrder, i: nat, o: RestingOrder)
    requires e.books == FlattenBooks(books) && BooksLevelled(books)
    requires o.price == cmd.price && BoundAt(LevelsFor(books, cmd.symbol).Of(cmd.side), cmd.price, i)
    ensures var books1 := SetLevels(books, cmd.symbol, cmd.side, Put(LevelsFor(books, cmd.symbol).Of(cmd.side), i, o));
            && BooksLevelled(books1)
            && FlattenBooks(books1) ==
               SetSide(e, cmd.symbol, cmd.side, Insert(cmd.side, BookFor(e, cmd.symbol).Of(cmd.side), o)).books
  {
    LevelsForIs(books, cmd.symbol);
    var levels := LevelsFor(books, cmd.symbol).Of(cmd.side);
    PutOk(levels, i, o);
    PutIs(cmd.side, levels, i, o);
    SetLevelsIs(books, cmd.symbol, cmd.side, Put(levels, i, o));
  }

  /** Taking a node out of its level is removing the order an index entry names. */
  lemma {:induction false} TakeRemoves(books: map<string, LevelBook>, e: Engine, id: int, i: nat)
    requires e.books == FlattenBooks(books) && BooksLevelled(books) && WellFormed(e) && id in e.index
    requires var loc := e.index[id]; BoundAt(LevelsFor(books, loc.symbol).Of(loc.side), loc.price, i)
    ensures var loc := e.index[id];
            var levels := LevelsFor(books, loc.symbol).Of(loc.side);
            && i < |levels|
            && Lookup(levels[i].orders, loc.node).Some?
            && Lookup(levels[i].orders, loc.node) == Located(e.books, loc)
            && BooksLevelled(SetLevels(books, loc.symbol, loc.side, Take(levels, i, loc.node)))
            && FlattenBooks(SetLevels(books, loc.symbol, loc.side, Take(levels, i, loc.node))) == Removed(e, id).books
  {
    hide WellFormed, Take, Flatten, BoundAt, Lookup, Remove, LevelsOk;
    var loc := e.index[id];
    var k := Pointed(e, id);
    LevelsForIs(books, loc.symbol);
    var levels := LevelsFor(books, loc.symbol).Of(loc.side);
    TakeIs(loc.side, levels, i, loc.price, loc.node);
    TakeOk(levels, i, loc.node);
    SetLevelsIs(books, loc.symbol, loc.side, Take(levels, i, loc.node));
  }

  // ---------------------------------------------------------------- volume

  /** A whole level counts, or none of it. */
  lemma {:induction false} AvailableLevel(side: Side, orders: seq<RestingOrder>, rest: seq<RestingOrder>, limit: int, price: int)
    requires forall i :: 0 <= i < |orders| ==> orders[i].price == price
    requires !Better(side, limit, price)
    ensures AvailableVolume(side, orders + rest, limit) == Volume(orders) + AvailableVolume(side, rest, limit)
  {
    if orders == [] {
      assert orders + rest == rest;
    } else {
      assert (orders + rest)[1..] == orders[1..] + rest;
      AvailableLevel(side, orders[1..], rest, limit, price);
    }
  }

  /** The best level counts in full, or the walk ends there. */
  lemma {:induction false} AvailableBest(side: Side, levels: seq<Level>, limit: int)
    requires LevelsOk(levels) && levels != []
    ensures var i := BestIndex(side, levels);
            AvailableVolume(side, Flatten(side, levels), limit) ==
            if Better(side, limit, levels[i].price) then 0
            else Volume(levels[i].orders) + AvailableVolume(side, Flatten(side, EraseAt(levels, i)), limit)
  {
    var i := BestIndex(side, levels);
    assert LevelOk(levels[i]);
    if !Better(side, limit, levels[i].price) {
      AvailableLevel(side, levels[i].orders, Flatten(side, EraseAt(levels, i)), limit, levels[i].price);
    }
  }

  lemma {:induction false} VolumeSplit(orders: seq<RestingOrder>, i: nat)
    requires i < |orders|
    ensures Volume(orders[..i + 1]) == Volume(orders[..i]) + orders[i].remaining
  {
    if i > 0 {
      assert orders[..i + 1][1..] == orders[1..][..i] && orders[..i][1..] == orders[1..][..i - 1];
      VolumeSplit(orders[1..], i - 1);
    }
  }

  // ---------------------------------------------------------------- writing levels out

  lemma {:induction false} RunOfLevel(orders: seq<RestingOrder>, rest: seq<RestingOrder>)
    requires orders != [] && forall i :: 0 <= i < |orders| ==> orders[i].price == orders[0].price
    requires rest != [] ==> rest[0].price != orders[0].price
    ensures RunLength(orders + rest) == |orders|
  {
    if |orders| > 1 {
      assert (orders + rest)[1..] == orders[1..] + rest;
      RunOfLevel(orders[1..], rest);
    }
  }

  lemma {:induction false} SideJsonRun(orders: seq<RestingOrder>, rest: seq<RestingOrder>)
    requires orders != [] && RunLength(orders + rest) == |orders|
    ensures SideJson(orders + rest) == [LevelJson(orders[0].price, orders)] + SideJson(rest)
  {
    var all := orders + rest;
    assert all[..|orders|] == orders && all[|orders|..] == rest && all[0] == orders[0];
  }

  /** The level behind the best one has another price. */
  lemma {:induction false} NextPrice(side: Side, levels: seq<Level>)
    requires LevelsOk(levels) && levels != []
    ensures var i := BestIndex(side, levels);
            var rest := Flatten(side, EraseAt(levels, i));
            rest != [] ==> rest[0].price != levels[i].price
  {
    hide Flatten;
    var i := BestIndex(side, levels);
    var rest := EraseAt(levels, i);
    EraseOk(levels, i);
    if Flatten(side, rest) != [] {
      var k := FlattenPrices(side, rest, 0);
      assert rest[k] == levels[if k < i then k else k + 1];
    }
  }

  /** One entry per stored level is one entry per run of equal prices. */
  lemma {:induction false} SideJsonBest(side: Side, levels: seq<Level>)
    requires LevelsOk(levels) && levels != []
    ensures var i := BestIndex(side, levels);
            SideJson(Flatten(side, levels)) ==
            [LevelJson(levels[i].price, levels[i].orders)] + SideJson(Flatten(side, EraseAt(levels, i)))
  {
    hide SideJson, LevelJson, RunLength;
    var i := BestIndex(side, levels);
    var flat := Flatten(side, EraseAt(levels, i));
    assert LevelOk(levels[i]);
    NextPrice(side, levels);
    RunOfLevel(levels[i].orders, flat);
    SideJsonRun(levels[i].orders, flat);
  }
}
