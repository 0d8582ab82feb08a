/** Loading an engine's own snapshot gives an engine that answers alike. */
module SnapshotLaws {
  import opened Orders
  import opened EngineSpec
  import opened EngineInvariants
  import opened IndexLaws
  import opened Simulation
  import opened JsonValue
  import opened Snapshot

  // ---------------------------------------------------------------- rebuilding one order at a time

  /** `a` with `o` put back, list node and all, at the end of its list. */
  function Appended(a: Engine, o: RestingOrder): Engine {
    SetSide(a, o.symbol, o.side, BookFor(a, o.symbol).Of(o.side) + [o])
    .(index := a.index[o.orderId := Location(o.symbol, o.side, o.price, o.node)])
  }

  function AppendAll(a: Engine, orders: seq<RestingOrder>): Engine
    decreases |orders|
  {
    if orders == [] then a else AppendAll(Appended(a, orders[0]), orders[1..])
  }

  /** The next order goes behind everything already in its list and its slot is unused. */
  ghost predicate Room(a: Engine, o: RestingOrder) {
    var l := BookFor(a, o.symbol).Of(o.side);
    && (forall i :: 0 <= i < |l| ==> !Better(o.side, o.price, l[i].price) && l[i].node != o.node)
    && (forall id :: id in a.index ==>
          !(a.index[id].symbol == o.symbol && a.index[id].side == o.side && a.index[id].node == o.node))
    && o.node < a.nextNode
  }

  lemma {:induction false} InsertLast(side: Side, orders: seq<RestingOrder>, o: RestingOrder)
    requires forall i :: 0 <= i < |orders| ==> !Better(side, o.price, orders[i].price)
    ensures Insert(side, orders, o) == orders + [o]
  {
    if orders != [] {
      InsertLast(side, orders[1..], o);
      assert [orders[0]] + (orders[1..] + [o]) == orders + [o];
    }
  }

  /** Freeing one unused slot and giving it a new number. */
  lemma {:induction false} Rename(f: Renaming, a: Engine, b: Engine, o: RestingOrder) returns (f1: Renaming)
    requires Mirrors(All, f, a, b) && Room(a, o)
    ensures f1 == f[Slot(o.symbol, o.side, o.node) := b.nextNode]
    ensures Mirrors(All, f1, a, b.(nextNode := b.nextNode + 1))
  {
    var slot := Slot(o.symbol, o.side, o.node);
    f1 := f[slot := b.nextNode];
    assert forall x :: x in f && x != slot ==> x in f1 && f1[x] == f[x];
    forall s | s in b.books
      ensures SameBook(f1, s, a.books[s], b.books[s])
    {
      assert SameBook(f, s, a.books[s], b.books[s]);
      if s == o.symbol {
        var l := BookFor(a, s).Of(o.side);
        assert forall i :: 0 <= i < |l| ==> l[i].node != o.node;
      }
    }
    forall id | id in b.index
      ensures SameLocation(f1, a.index[id], b.index[id])
    {
      assert SameLocation(f, a.index[id], b.index[id]);
    }
  }

  lemma {:induction false} AppendedSame(f: Renaming, a: Engine, b: Engine, o: RestingOrder) returns (f1: Renaming)
    requires Mirrors(All, f, a, b) && Room(a, o)
    ensures Mirrors(All, f1, Appended(a, o), Rest(b, Restored(o), o.remaining))
  {
    f1 := Rename(f, a, b, o);
    var b1 := b.(nextNode := b.nextNode + 1);
    BookForSame(All, f1, a, b1, o.symbol);
    var l, l' := BookFor(a, o.symbol).Of(o.side), BookFor(b, o.symbol).Of(o.side);
    var o' := o.(entered := b.sequence, node := b.nextNode);
    forall i | 0 <= i < |l'|
      ensures !Better(o.side, o'.price, l'[i].price)
    {
      assert SameOrder(f1, o.symbol, o.side, l[i], l'[i]);
    }
    InsertLast(o.side, l', o');
    assert SameSide(f1, o.symbol, o.side, l + [o], l' + [o']);
    SetSideSame(All, f1, a, b1, o.symbol, o.side, l + [o], l' + [o']);
    assert SameLocation(f1, Location(o.symbol, o.side, o.price, o.node), Location(o.symbol, o.side, o.price, b.nextNode));
  }

  // ---------------------------------------------------------------- the index a snapshot gives back

  function LocationOf(o: RestingOrder): Location {
    Location(o.symbol, o.side, o.price, o.node)
  }

  /** Indexing orders one after the other: of those that share an id, the last stays. */
  function IndexAll(index: map<int, Location>, orders: seq<RestingOrder>): map<int, Location>
    decreases |orders|
  {
    if orders == [] then index else IndexAll(index[orders[0].orderId := LocationOf(orders[0])], orders[1..])
  }

  /** The orders of an engine as a snapshot writes them: book by book, bids then asks, best first. */
  function Written(books: map<string, Book>, names: seq<string>): seq<RestingOrder>
    requires forall i :: 0 <= i < |names| ==> names[i] in books
  {
    if names == [] then [] else
    var b := books[names[0]];
    b.bids + b.asks + Written(books, names[1..])
  }

  /** `e` with each id leading to the last order written under it. */
  function Reindexed(e: Engine, names: seq<string>): Engine
    requires Enumerates(names, e.books)
  {
    e.(index := IndexAll(map[], Written(e.books, names)))
  }

  /** The index already is what a snapshot would give back: it holds exactly the
      resting ids, each at the last order written under it. */
  predicate IndexesLast(e: Engine, names: seq<string>)
    requires Enumerates(names, e.books)
  {
    e.index == IndexAll(map[], Written(e.books, names))
  }

  /** `i` is the last place where its id occurs. */
  predicate LastOfItsId(orders: seq<RestingOrder>, i: nat)
    requires i < |orders|
  {
    forall j :: i < j < |orders| ==> orders[j].orderId != orders[i].orderId
  }

  lemma {:induction false} IndexAllConcat(index: map<int, Location>, a: seq<RestingOrder>, b: seq<RestingOrder>)
    ensures IndexAll(index, a + b) == IndexAll(IndexAll(index, a), b)
    decreases |a|
  {
    if a == [] {
      assert a + b == b;
    } else {
      assert (a + b)[1..] == a[1..] + b;
      IndexAllConcat(index[a[0].orderId := LocationOf(a[0])], a[1..], b);
    }
  }

  /** Where an entry comes from. */
  lemma {:induction false} IndexAllFrom(index: map<int, Location>, orders: seq<RestingOrder>, id: int) returns (i: nat)
    requires id in IndexAll(index, orders)
    ensures if i < |orders| then
              orders[i].orderId == id && LastOfItsId(orders, i) && IndexAll(index, orders)[id] == LocationOf(orders[i])
            else
              id in index && IndexAll(index, orders)[id] == index[id] && forall j :: 0 <= j < |orders| ==> orders[j].orderId != id
    decreases |orders|
  {
    if orders == [] {
      i := 0;
    } else {
      var j := IndexAllFrom(index[orders[0].orderId := LocationOf(orders[0])], orders[1..], id);
      i := if j < |orders[1..]| then j + 1 else if orders[0].orderId == id then 0 else |orders|;
      forall k | i < k < |orders|
        ensures orders[k].orderId != id
      {
        assert orders[k] == orders[1..][k - 1];
      }
      if i == |orders| {
        forall k | 0 <= k < |orders|
          ensures orders[k].orderId != id
        {
          assert k > 0 ==> orders[k] == orders[1..][k - 1];
        }
      }
    }
  }

  lemma {:induction false} IndexAllHas(index: map<int, Location>, orders: seq<RestingOrder>, i: nat)
    requires i < |orders|
    ensures orders[i].orderId in IndexAll(index, orders)
    decreases |orders|
  {
    if i == 0 {
      IndexAllKeeps(index[orders[0].orderId := LocationOf(orders[0])], orders[1..], orders[0].orderId);
    } else {
      IndexAllHas(index[orders[0].orderId := LocationOf(orders[0])], orders[1..], i - 1);
    }
  }

  lemma {:induction false} IndexAllKeeps(index: map<int, Location>, orders: seq<RestingOrder>, id: int)
    requires id in index
    ensures id in IndexAll(index, orders)
    decreases |orders|
  {
    if orders != [] {
      IndexAllKeeps(index[orders[0].orderId := LocationOf(orders[0])], orders[1..], id);
    }
  }

  /** The condition, said order by order: exactly the ids written, each at its last order. */
  lemma {:induction false} IndexesLastMeans(e: Engine, names: seq<string>)
    requires Enumerates(names, e.books)
    ensures IndexesLast(e, names) <==>
            var orders := Written(e.books, names);
            && (forall id :: id in e.index ==> exists i :: 0 <= i < |orders| && orders[i].orderId == id)
            && (forall i :: 0 <= i < |orders| ==>
                  orders[i].orderId in e.index && (LastOfItsId(orders, i) ==> e.index[orders[i].orderId] == LocationOf(orders[i])))
  {
    hide IndexAll, Written;
    var orders := Written(e.books, names);
    var last := IndexAll(map[], orders);
    forall i | 0 <= i < |orders|
      ensures orders[i].orderId in last && (LastOfItsId(orders, i) ==> last[orders[i].orderId] == LocationOf(orders[i]))
    {
      IndexAllHas(map[], orders, i);
      var k := IndexAllFrom(map[], orders, orders[i].orderId);
    }
    forall id | id in last
      ensures exists i :: 0 <= i < |orders| && orders[i].orderId == id && LastOfItsId(orders, i) && last[id] == LocationOf(orders[i])
    {
      var k := IndexAllFrom(map[], orders, id);
    }
    LastDecides(e.index, last, orders);
  }

  lemma {:induction false} LastDecides(index: map<int, Location>, last: map<int, Location>, orders: seq<RestingOrder>)
    requires forall i :: 0 <= i < |orders| ==>
               orders[i].orderId in last && (LastOfItsId(orders, i) ==> last[orders[i].orderId] == LocationOf(orders[i]))
    requires forall id :: id in last ==>
               exists i :: 0 <= i < |orders| && orders[i].orderId == id && LastOfItsId(orders, i) && last[id] == LocationOf(orders[i])
    ensures index == last <==>
            && (forall id :: id in index ==> exists i :: 0 <= i < |orders| && orders[i].orderId == id)
            && (forall i :: 0 <= i < |orders| ==>
                  orders[i].orderId in index && (LastOfItsId(orders, i) ==> index[orders[i].orderId] == LocationOf(orders[i])))
  {
    hide LastOfItsId, LocationOf;
    if (&& (forall id :: id in index ==> exists i :: 0 <= i < |orders| && orders[i].orderId == id)
        && (forall i :: 0 <= i < |orders| ==>
              orders[i].orderId in index && (LastOfItsId(orders, i) ==> index[orders[i].orderId] == LocationOf(orders[i]))))
    {
      assert forall id :: id in index <==> id in last;
      forall id | id in last
        ensures index[id] == last[id]
      {
        var i :| 0 <= i < |orders| && orders[i].orderId == id && LastOfItsId(orders, i) && last[id] == LocationOf(orders[i]);
      }
    }
  }

  // ---------------------------------------------------------------- rebuilding one side

  /** Index entries lead somewhere. */
  ghost predicate Reaches(a: Engine) {
    forall id :: id in a.index ==> a.index[id].symbol in a.books && Located(a.books, a.index[id]).Some?
  }

  /** `a` is a part of `e` still missing `orders`, the tail of one side of `e`. */
  ghost predicate Missing(e: Engine, a: Engine, symbol: string, side: Side, orders: seq<RestingOrder>) {
    && symbol in e.books && symbol in a.books && a.nextNode == e.nextNode
    && e.books[symbol].Of(side) == a.books[symbol].Of(side) + orders
    && Reaches(a)
  }

  /** In a priority list nobody is behind someone worse, and no two share a node. */
  lemma {:induction false} BehindAll(side: Side, l: seq<RestingOrder>, orders: seq<RestingOrder>)
    requires orders != [] && Prioritised(side, l + orders)
    ensures forall i :: 0 <= i < |l| ==> !Better(side, orders[0].price, l[i].price) && l[i].node != orders[0].node
  {
    var all := l + orders;
    forall i | 0 <= i < |l|
      ensures !Better(side, orders[0].price, l[i].price) && l[i].node != orders[0].node
    {
      assert all[i] == l[i] && all[|l|] == orders[0];
      assert Ahead(side, all[i], all[|l|]);
    }
  }

  lemma {:induction false} LookupLonger(l: seq<RestingOrder>, o: RestingOrder, node: nat)
    requires Lookup(l, node).Some? || node == o.node
    ensures Lookup(l + [o], node).Some?
    decreases |l|
  {
    if l == [] {
      assert l + [o] == [o];
    } else if l[0].node != node {
      assert (l + [o])[1..] == l[1..] + [o];
      LookupLonger(l[1..], o, node);
    }
  }

  lemma {:induction false} AppendedReaches(a: Engine, o: RestingOrder)
    requires Reaches(a) && o.symbol in a.books
    ensures Reaches(Appended(a, o))
  {
    hide Lookup;
    var l := a.books[o.symbol].Of(o.side);
    var r := Appended(a, o);
    forall id | id in r.index
      ensures r.index[id].symbol in r.books && Located(r.books, r.index[id]).Some?
    {
      var loc := r.index[id];
      if loc.symbol == o.symbol && loc.side == o.side {
        LookupLonger(l, o, loc.node);
      }
    }
  }

  lemma {:induction false} MissingHasRoom(e: Engine, a: Engine, symbol: string, side: Side, orders: seq<RestingOrder>)
    requires WellFormed(e) && Missing(e, a, symbol, side, orders) && orders != []
    ensures orders[0].symbol == symbol && orders[0].side == side
    ensures Room(a, orders[0])
    ensures Missing(e, Appended(a, orders[0]), symbol, side, orders[1..])
  {
    hide Points, Prioritised, Lookup;
    var l, o := a.books[symbol].Of(side), orders[0];
    var all := e.books[symbol].Of(side);
    assert BookOk(symbol, e.nextNode, e.books[symbol]);
    assert all[|l|] == o;
    assert OrderOk(symbol, side, e.nextNode, all[|l|]);
    BehindAll(side, l, orders);
    forall id | id in a.index && a.index[id].symbol == symbol && a.index[id].side == side
      ensures a.index[id].node != o.node
    {
      var i := LookupAt(l, a.index[id].node);
    }
    AppendedReaches(a, o);
    assert l + orders == (l + [o]) + orders[1..];
  }

  lemma {:induction false} RestAllSame(e: Engine, f: Renaming, a: Engine, b: Engine, symbol: string, side: Side,
                                       orders: seq<RestingOrder>) returns (f1: Renaming)
    requires WellFormed(e) && Missing(e, a, symbol, side, orders) && Mirrors(All, f, a, b)
    ensures Mirrors(All, f1, AppendAll(a, orders), RestAll(b, orders))
    ensures Reaches(AppendAll(a, orders))
    decreases |orders|
  {
    hide Mirrors, WellFormed, Rest, Appended;
    f1 := f;
    if orders != [] {
      MissingHasRoom(e, a, symbol, side, orders);
      f1 := AppendedSame(f, a, b, orders[0]);
      f1 := RestAllSame(e, f1, Appended(a, orders[0]), Rest(b, Restored(orders[0]), orders[0].remaining),
                        symbol, side, orders[1..]);
    }
  }

  lemma {:induction false} RestAllSequence(b: Engine, orders: seq<RestingOrder>)
    ensures RestAll(b, orders).sequence == b.sequence
    decreases |orders|
  {
    if orders != [] {
      RestAllSequence(Rest(b, Restored(orders[0]), orders[0].remaining), orders[1..]);
    }
  }

  /** Putting back all of one side. */
  lemma {:induction false} AppendAllIs(a: Engine, symbol: string, side: Side, orders: seq<RestingOrder>)
    requires symbol in a.books && Belongs(symbol, side, orders)
    ensures var l := a.books[symbol].Of(side) + orders;
            AppendAll(a, orders) ==
            a.(books := a.books[symbol := a.books[symbol].With(side, l)], index := IndexAll(a.index, orders))
    decreases |orders|
  {
    var l := a.books[symbol].Of(side);
    if orders == [] {
      assert l + orders == l;
      assert a.books[symbol := a.books[symbol].With(side, l)] == a.books;
    } else {
      AppendAllIs(Appended(a, orders[0]), symbol, side, orders[1..]);
      assert (l + [orders[0]]) + orders[1..] == l + orders;
    }
  }

  // ---------------------------------------------------------------- rebuilding book after book

  /** The books of `e` in `done`, under some index. */
  ghost function Portion(e: Engine, done: set<string>, index: map<int, Location>): Engine {
    e.(books := map s | s in e.books && s in done :: e.books[s], index := index)
  }

  lemma {:induction false} OpenSame(f: Renaming, a: Engine, b: Engine, symbol: string)
    requires Mirrors(All, f, a, b)
    ensures Mirrors(All, f, OpenBook(a, symbol), OpenBook(b, symbol))
  {
    BookForSame(All, f, a, b, symbol);
  }

  /** Nothing of `symbol` is there yet. */
  lemma {:induction false} MissingBids(e: Engine, done: set<string>, index: map<int, Location>, symbol: string)
    requires symbol in e.books && symbol !in done && Reaches(Portion(e, done, index))
    ensures Missing(e, OpenBook(Portion(e, done, index), symbol), symbol, Buy, e.books[symbol].bids)
  {
    hide Lookup;
    assert OpenBook(Portion(e, done, index), symbol).books[symbol] == Book([], []);
  }

  lemma {:induction false} BookFacts(e: Engine, symbol: string)
    requires WellFormed(e) && symbol in e.books
    ensures Belongs(symbol, Buy, e.books[symbol].bids) && Belongs(symbol, Sell, e.books[symbol].asks)
  {
    assert BookOk(symbol, e.nextNode, e.books[symbol]);
  }

  /** The bids are there, the asks are not. */
  lemma {:induction false} MissingAsks(e: Engine, done: set<string>, index: map<int, Location>, symbol: string)
    requires symbol in e.books && symbol !in done && Belongs(symbol, Buy, e.books[symbol].bids)
    requires Reaches(AppendAll(OpenBook(Portion(e, done, index), symbol), e.books[symbol].bids))
    ensures var a := AppendAll(OpenBook(Portion(e, done, index), symbol), e.books[symbol].bids);
            OpenBook(a, symbol) == a && Missing(e, a, symbol, Sell, e.books[symbol].asks)
  {
    hide Reaches;
    var a0, bids := OpenBook(Portion(e, done, index), symbol), e.books[symbol].bids;
    AppendAllIs(a0, symbol, Buy, bids);
    var a := AppendAll(a0, bids);
    assert a.books[symbol := a.books[symbol]] == a.books;
    assert [] + e.books[symbol].asks == e.books[symbol].asks;
  }

  lemma {:induction false} BookCompletes(e: Engine, done: set<string>, index: map<int, Location>, symbol: string)
    requires symbol in e.books && symbol !in done
    requires Belongs(symbol, Buy, e.books[symbol].bids) && Belongs(symbol, Sell, e.books[symbol].asks)
    ensures var b := e.books[symbol];
            AppendAll(AppendAll(OpenBook(Portion(e, done, index), symbol), b.bids), b.asks)
            == Portion(e, done + {symbol}, IndexAll(index, b.bids + b.asks))
  {
    hide IndexAll, AppendAll;
    var a0, b := OpenBook(Portion(e, done, index), symbol), e.books[symbol];
    AppendAllIs(a0, symbol, Buy, b.bids);
    var a1 := AppendAll(a0, b.bids);
    assert a1.books[symbol] == Book(b.bids, []) by { assert [] + b.bids == b.bids; }
    AppendAllIs(a1, symbol, Sell, b.asks);
    assert [] + b.asks == b.asks;
    IndexAllConcat(index, b.bids, b.asks);
    PortionGrows(e, done, index, symbol);
    assert AppendAll(a1, b.asks).books == a0.books[symbol := b];
  }

  lemma {:induction false} PortionGrows(e: Engine, done: set<string>, index: map<int, Location>, symbol: string)
    requires symbol in e.books
    ensures OpenBook(Portion(e, done, index), symbol).books[symbol := e.books[symbol]] ==
            Portion(e, done + {symbol}, index).books
  {
  }

  lemma {:induction false} RestoreBookSame(e: Engine, f: Renaming, b: Engine, done: set<string>, index: map<int, Location>,
                                         symbol: string) returns (f1: Renaming)
    requires WellFormed(e) && symbol in e.books && symbol !in done
    requires Mirrors(All, f, Portion(e, done, index), b) && Reaches(Portion(e, done, index))
    ensures var a1 := Portion(e, done + {symbol}, IndexAll(index, e.books[symbol].bids + e.books[symbol].asks));
            && Mirrors(All, f1, a1, RestoreBook(b, symbol, BookJson(e.books[symbol])))
            && Reaches(a1)
    ensures RestoreBook(b, symbol, BookJson(e.books[symbol])).sequence == b.sequence
  {
    hide Mirrors, WellFormed, Reaches, Portion, AppendAll, RestAll, IndexAll;
    var book := e.books[symbol];
    BookFacts(e, symbol);
    RestoreBookOf(b, symbol, book);
    var a0, b0 := OpenBook(Portion(e, done, index), symbol), OpenBook(b, symbol);
    OpenSame(f, Portion(e, done, index), b, symbol);
    MissingBids(e, done, index, symbol);
    f1 := RestAllSame(e, f, a0, b0, symbol, Buy, book.bids);
    RestAllSequence(b0, book.bids);
    var a1, b1 := AppendAll(a0, book.bids), RestAll(b0, book.bids);
    OpenSame(f1, a1, b1, symbol);
    MissingAsks(e, done, index, symbol);
    f1 := RestAllSame(e, f1, a1, OpenBook(b1, symbol), symbol, Sell, book.asks);
    RestAllSequence(OpenBook(b1, symbol), book.asks);
    BookCompletes(e, done, index, symbol);
  }

  ghost function NameSet(names: seq<string>): set<string> {
    set s | s in names
  }

  lemma {:induction false} NameSetNone(done: set<string>, names: seq<string>)
    requires names == []
    ensures done + NameSet(names) == done
  {
  }

  lemma {:induction false} NameSetStep(done: set<string>, names: seq<string>)
    requires names != []
    ensures done + NameSet(names) == done + {names[0]} + NameSet(names[1..])
  {
    assert names == [names[0]] + names[1..];
  }

  lemma {:induction false} RestoreBooksSame(e: Engine, f: Renaming, b: Engine, done: set<string>, index: map<int, Location>,
                                          names: seq<string>) returns (f1: Renaming)
    requires WellFormed(e)
    requires forall i :: 0 <= i < |names| ==> names[i] in e.books && names[i] !in done
    requires forall i, j :: 0 <= i < j < |names| ==> names[i] != names[j]
    requires Mirrors(All, f, Portion(e, done, index), b) && Reaches(Portion(e, done, index))
    ensures var r := RestoreBooks(b, BooksJson(e.books, names));
            && r.Some? && r.value.sequence == b.sequence
            && Mirrors(All, f1, Portion(e, done + NameSet(names), IndexAll(index, Written(e.books, names))), r.value)
    decreases |names|
  {
    hide WellFormed, Mirrors, Reaches, NameSet, RestoreBook, SideJson, Portion, IndexAll;
    f1 := f;
    if names == [] {
      NameSetNone(done, names);
      IndexNothing(index);
    } else {
      var js := BooksJson(e.books, names);
      var own := e.books[names[0]].bids + e.books[names[0]].asks;
      assert js[0] == Member(names[0], BookJson(e.books[names[0]])) && js[1..] == BooksJson(e.books, names[1..]);
      f1 := RestoreBookSame(e, f, b, done, index, names[0]);
      f1 := RestoreBooksSame(e, f1, RestoreBook(b, names[0], BookJson(e.books[names[0]])), done + {names[0]},
                             IndexAll(index, own), names[1..]);
      NameSetStep(done, names);
      IndexAllConcat(index, own, Written(e.books, names[1..]));
    }
  }

  lemma {:induction false} IndexNothing(index: map<int, Location>)
    ensures IndexAll(index, []) == index
  {
  }

  lemma {:induction false} PortionAll(e: Engine, names: seq<string>)
    requires Enumerates(names, e.books)
    ensures Portion(e, {} + NameSet(names), IndexAll(map[], Written(e.books, names))) == Reindexed(e, names)
  {
    hide IndexAll, Written;
    assert Portion(e, {} + NameSet(names), e.index).books == e.books;
  }

  lemma {:induction false} PortionNone(e: Engine, nodes: nat)
    ensures Mirrors(All, map[], Portion(e, {}, map[]), Engine(map[], map[], e.sequence, nodes)) && Reaches(Portion(e, {}, map[]))
  {
    assert Portion(e, {}, map[]).books == map[];
  }

  lemma {:induction false} LoadFinds(e: Engine, names: seq<string>, nodes: nat)
    requires Enumerates(names, e.books)
    ensures LoadJson(nodes, SnapshotJson(e, names)) ==
            RestoreBooks(Engine(map[], map[], e.sequence, nodes), BooksJson(e.books, names))
  {
    var second := [Member("books", Object(BooksJson(e.books, names)))];
    assert SnapshotJson(e, names).members == [Member("sequence", Int(e.sequence))] + second;
    FindNext("sequence", Int(e.sequence), second, "books");
    assert |"sequence"| == 8 && |"books"| == 5;
  }

  /** What is loaded from the snapshot of a well-formed engine, reused ids or not,
      mirrors that engine with each id at the last order written under it. */
  lemma {:induction false} RestoreMirrors(e: Engine, names: seq<string>, nodes: nat) returns (f: Renaming)
    requires WellFormed(e) && Enumerates(names, e.books)
    ensures var r := LoadJson(nodes, SnapshotJson(e, names));
            r.Some? && r.value.sequence == e.sequence && Mirrors(All, f, Reindexed(e, names), r.value)
  {
    hide WellFormed, Mirrors, Reaches, LoadJson, SnapshotJson, RestoreBooks, IndexAll, Written, Portion, NameSet, Reindexed;
    LoadFinds(e, names, nodes);
    PortionNone(e, nodes);
    f := RestoreBooksSame(e, map[], Engine(map[], map[], e.sequence, nodes), {}, map[], names);
    PortionAll(e, names);
  }

  // ---------------------------------------------------------------- exactly when the snapshot is invisible

  /** A written order is in its list. */
  lemma {:induction false} WrittenIn(e: Engine, names: seq<string>, i: nat) returns (k: nat)
    requires WellFormed(e) && (forall j :: 0 <= j < |names| ==> names[j] in e.books) && i < |Written(e.books, names)|
    ensures var o := Written(e.books, names)[i];
            o.symbol in e.books && k < |e.books[o.symbol].Of(o.side)| && e.books[o.symbol].Of(o.side)[k] == o
    decreases |names|
  {
    hide IndexOk, SideOk, BooksOk;
    var b := e.books[names[0]];
    BookFacts(e, names[0]);
    if i < |b.bids| {
      k := i;
    } else if i < |b.bids| + |b.asks| {
      k := i - |b.bids|;
    } else {
      assert Written(e.books, names)[i] == Written(e.books, names[1..])[i - |b.bids| - |b.asks|];
      k := WrittenIn(e, names[1..], i - |b.bids| - |b.asks|);
    }
  }

  lemma {:induction false} LookupOwn(side: Side, orders: seq<RestingOrder>, k: nat)
    requires Prioritised(side, orders) && k < |orders|
    ensures Lookup(orders, orders[k].node) == Some(orders[k])
    decreases |orders|
  {
    if k > 0 {
      assert Ahead(side, orders[0], orders[k]);
      LookupOwn(side, orders[1..], k - 1);
    }
  }

  /** Reindexing leaves a well-formed engine. */
  lemma {:induction false} ReindexedOk(e: Engine, names: seq<string>)
    requires WellFormed(e) && Enumerates(names, e.books)
    ensures WellFormed(Reindexed(e, names))
  {
    hide IndexAll, Written, Lookup, Prioritised;
    var orders := Written(e.books, names);
    var index := IndexAll(map[], orders);
    forall id | id in index
      ensures Points(e.books, id, index[id])
    {
      var i := IndexAllFrom(map[], orders, id);
      var k := WrittenIn(e, names, i);
      var o := orders[i];
      assert BookOk(o.symbol, e.nextNode, e.books[o.symbol]);
      LookupOwn(o.side, e.books[o.symbol].Of(o.side), k);
    }
  }

  /** Two mirrors of the same books agree on where a list position went. */
  lemma {:induction false} SameNode(f: Renaming, g: Renaming, s: string, d: Side, limit: nat, a: seq<RestingOrder>,
                                  b: seq<RestingOrder>, x: nat, y: nat)
    requires Injective(f) && SameSide(f, s, d, a, b) && SameSide(g, s, d, a, b) && SideOk(s, d, limit, a)
    requires Lookup(a, x).Some? && Lookup(a, y).Some?
    requires Slot(s, d, x) in f && Slot(s, d, y) in g && f[Slot(s, d, x)] == g[Slot(s, d, y)]
    ensures x == y
  {
    hide SideOk, Lookup;
    var i := LookupAt(a, x);
    var j := LookupAt(a, y);
    assert SameOrder(f, s, d, a[i], b[i]) && SameOrder(g, s, d, a[j], b[j]) && SameOrder(f, s, d, a[j], b[j]);
  }

  lemma {:induction false} MirrorIndex(e: Engine, names: seq<string>, f: Renaming, g: Renaming, r: Engine, id: int)
    requires WellFormed(e) && Enumerates(names, e.books)
    requires Mirrors(All, f, e, r) && Mirrors(All, g, Reindexed(e, names), r) && id in r.index
    ensures id in e.index && id in Reindexed(e, names).index && e.index[id] == Reindexed(e, names).index[id]
  {
    hide IndexAll, Written, Lookup, SideOk;
    ReindexedOk(e, names);
    var x, y := e.index[id], Reindexed(e, names).index[id];
    assert SameLocation(f, x, r.index[id]) && SameLocation(g, y, r.index[id]);
    assert Points(e.books, id, x) && Points(e.books, id, y);
    assert BookOk(x.symbol, e.nextNode, e.books[x.symbol]);
    assert SameBook(f, x.symbol, e.books[x.symbol], r.books[x.symbol]);
    assert SameBook(g, x.symbol, e.books[x.symbol], r.books[x.symbol]);
    SameNode(f, g, x.symbol, x.side, e.nextNode, e.books[x.symbol].Of(x.side), r.books[x.symbol].Of(x.side), x.node, y.node);
  }

  /** The engine loaded from a snapshot mirrors the one that was saved if and only if
      the index of the saved one held, under each resting id, the last order written. */
  lemma {:induction false} MirrorsExactly(e: Engine, names: seq<string>, nodes: nat)
    requires WellFormed(e) && Enumerates(names, e.books)
    ensures var r := LoadJson(nodes, SnapshotJson(e, names));
            r.Some? && ((exists f :: Mirrors(All, f, e, r.value)) <==> IndexesLast(e, names))
  {
    hide WellFormed, LoadJson, SnapshotJson, Names, SameBooks;
    var g := RestoreMirrors(e, names, nodes);
    var r := LoadJson(nodes, SnapshotJson(e, names)).value;
    if f :| Mirrors(All, f, e, r) {
      forall id | id in r.index
        ensures id in e.index && id in Reindexed(e, names).index && e.index[id] == Reindexed(e, names).index[id]
      {
        MirrorIndex(e, names, f, g, r, id);
      }
      SameIndexSame(f, e, r);
      SameIndexSame(g, Reindexed(e, names), r);
      SameMaps(e.index, Reindexed(e, names).index, r.index);
    }
    if IndexesLast(e, names) {
      assert Reindexed(e, names) == e;
    }
  }

  lemma {:induction false} SameIndexSame(f: Renaming, a: Engine, b: Engine)
    requires Mirrors(All, f, a, b)
    ensures forall id :: id in a.index <==> id in b.index
  {
  }

  lemma {:induction false} SameMaps(a: map<int, Location>, b: map<int, Location>, c: map<int, Location>)
    requires forall id :: id in a <==> id in c
    requires forall id :: id in b <==> id in c
    requires forall id :: id in c ==> id in a && id in b && a[id] == b[id]
    ensures a == b
  {
    forall id
      ensures id in a <==> id in b
      ensures id in a ==> a[id] == b[id]
    {
      assert id in a <==> id in c;
      assert id in b <==> id in c;
    }
  }

  /** Snapshot and load are invisible from outside: after every run that leaves the
      index as the snapshot would give it back, the loaded engine answers every later
      command sequence with the same events, the same numbers and the same trades. */
  lemma {:induction false} SnapshotIsTransparent(before: seq<Command>, names: seq<string>, nodes: nat, after: seq<Command>)
    requires Enumerates(names, Run(EMPTY_ENGINE, before).books)
    requires IndexesLast(Run(EMPTY_ENGINE, before), names)
    ensures var e := Run(EMPTY_ENGINE, before);
            var r := LoadJson(nodes, SnapshotJson(e, names));
            r.Some? && Replies(r.value, after) == Replies(e, after)
  {
    hide Run, LoadJson, SnapshotJson, Replies, Mirrors;
    var e := Run(EMPTY_ENGINE, before);
    RunOk(EMPTY_ENGINE, before);
    var f := RestoreMirrors(e, names, nodes);
    assert Reindexed(e, names) == e;
    RunSame(f, e, LoadJson(nodes, SnapshotJson(e, names)).value, after);
  }

  // ---------------------------------------------------------------- runs that never reuse a resting id

  lemma {:induction false} WrittenHas(books: map<string, Book>, names: seq<string>, s: string, d: Side, k: nat) returns (i: nat)
    requires (forall j :: 0 <= j < |names| ==> names[j] in books) && s in names && k < |books[s].Of(d)|
    ensures i < |Written(books, names)| && Written(books, names)[i] == books[s].Of(d)[k]
    decreases |names|
  {
    var b := books[names[0]];
    if s == names[0] {
      i := if d == Buy then k else |b.bids| + k;
    } else {
      var j := WrittenHas(books, names[1..], s, d, k);
      i := |b.bids| + |b.asks| + j;
    }
  }

  /** With no id shared, every writing order is the right one. */
  lemma {:induction false} IndexedIndexesLast(e: Engine, names: seq<string>)
    requires WellFormed(e) && Indexed(e) && Enumerates(names, e.books)
    ensures IndexesLast(e, names)
  {
    hide Written, IndexesLast, Lookup, BooksOk, LastOfItsId;
    var orders := Written(e.books, names);
    forall i | 0 <= i < |orders|
      ensures orders[i].orderId in e.index && e.index[orders[i].orderId] == LocationOf(orders[i])
    {
      var k := WrittenIn(e, names, i);
      assert BookIndexed(e.index, orders[i].symbol, e.books[orders[i].symbol]);
    }
    forall id | id in e.index
      ensures exists i :: 0 <= i < |orders| && orders[i].orderId == id
    {
      var loc := e.index[id];
      assert Points(e.books, id, loc);
      var k := LookupAt(e.books[loc.symbol].Of(loc.side), loc.node);
      var i := WrittenHas(e.books, names, loc.symbol, loc.side, k);
    }
    IndexesLastMeans(e, names);
  }

  lemma {:induction false} FreshRunIndexesLast(before: seq<Command>, names: seq<string>)
    requires FreshRun(EMPTY_ENGINE, before) && Enumerates(names, Run(EMPTY_ENGINE, before).books)
    ensures IndexesLast(Run(EMPTY_ENGINE, before), names)
  {
    hide Run, FreshRun, IndexesLast;
    RunIndexed(EMPTY_ENGINE, before);
    IndexedIndexesLast(Run(EMPTY_ENGINE, before), names);
  }
}
