/** The texts on disk, letter by letter: numbers, strings, the records of the log,
    its lines, and snapshots. */
module Texts {
  import opened Orders
  import opened EngineSpec
  import opened JsonValue
  import opened JsonText
  import opened Crc
  import opened Wal
  import opened Snapshot
  import opened ShardedSpec

  // ---------------------------------------------------------------- numbers

  /** `n` without its last `k` digits. */
  function Struck(n: nat, base: nat, k: nat): nat
    requires base > 1
    decreases k
  {
    if k == 0 then n else Struck(n / base, base, k - 1)
  }

  /** A number is printed in decimal digits, the last of `n` last, without leading zeros. */
  lemma {:induction false} DecimalDigits(n: nat)
    ensures var s := Decimal(n);
            && (forall i :: 0 <= i < |s| ==> s[|s| - 1 - i] as int == 48 + Struck(n, 10, i) % 10)
            && Struck(n, 10, |s|) == 0 && (|s| > 1 ==> s[0] != '0')
    decreases n
  {
    if n >= 10 {
      var s, t := Decimal(n), Decimal(n / 10);
      DecimalDigits(n / 10);
      forall i | 0 <= i < |s|
        ensures s[|s| - 1 - i] as int == 48 + Struck(n, 10, i) % 10
      {
        if i > 0 {
          assert s[|s| - 1 - i] == t[|t| - 1 - (i - 1)];
        }
      }
      assert Struck(n, 10, |s|) == Struck(n / 10, 10, |t|);
      if |t| == 1 {
        assert t[0] as int == 48 + Struck(n / 10, 10, 0) % 10;
        assert Struck(n / 10, 10, 1) == n / 10 / 10;
      }
    } else {
      assert Struck(n, 10, 1) == Struck(n / 10, 10, 0);
    }
  }

  lemma {:induction false} HexDigitIs(d: int)
    requires 0 <= d < 16
    ensures HexDigit(d) == "0123456789abcdef"[d]
  {
  }

  /** A checksum is printed in lower-case hexadecimal digits, the last of `n` last. */
  lemma {:induction false} HexDigits(n: nat, width: nat)
    ensures forall i :: 0 <= i < width ==> Hex(n, width)[i] == "0123456789abcdef"[Struck(n, 16, width - 1 - i) % 16]
    decreases width
  {
    hide HexDigit;
    if width > 0 {
      var s, t := Hex(n, width), Hex(n / 16, width - 1);
      HexDigits(n / 16, width - 1);
      HexDigitIs(n % 16);
      assert forall i :: 0 <= i < width - 1 ==> s[i] == t[i];
    }
  }

  // ---------------------------------------------------------------- strings

  predicate PlainChar(c: char) {
    c as int >= 0x20 && c != '"' && c != '\\'
  }

  predicate PlainText(s: string) {
    forall i :: 0 <= i < |s| ==> PlainChar(s[i])
  }

  /** Text without quotes, backslashes and control characters is written as it is. */
  lemma {:induction false} PlainWritten(s: string)
    requires PlainText(s)
    ensures EscapeAll(s) == s
    decreases |s|
  {
    if s != [] {
      assert PlainChar(s[0]);
      PlainWritten(s[1..]);
    }
  }

  /** A quote, a backslash and the five control characters with a letter of their own
      take a backslash and one character; the other control characters "\u" and four digits. */
  lemma {:induction false} EscapesWritten(c: char, rest: string)
    ensures var text := EscapeAll([c] + rest);
            text == (match c
                     case '"' => ['\\', '"']
                     case '\\' => ['\\', '\\']
                     case '\n' => ['\\', 'n']
                     case '\r' => ['\\', 'r']
                     case '\t' => ['\\', 't']
                     case _ =>
                       if c as int == 8 then ['\\', 'b']
                       else if c as int == 12 then ['\\', 'f']
                       else if c as int < 0x20 then
                         ['\\', 'u', '0', '0', if c as int < 16 then '0' else '1', "0123456789abcdef"[c as int % 16]]
                       else [c])
                    + EscapeAll(rest)
  {
    assert ([c] + rest)[1..] == rest;
    if c as int < 0x20 {
      ControlDigits(c as int);
    }
  }

  lemma {:induction false} ControlDigits(n: nat)
    requires n < 0x20
    ensures Hex(n, 4) == ['0', '0', if n < 16 then '0' else '1', "0123456789abcdef"[n % 16]]
  {
    hide HexDigit;
    HexDigitIs(n % 16);
    HexDigitIs(n / 16);
    HexDigitIs(0);
    assert Hex(0, 0) == [] && Hex(0, 1) == ['0'] && Hex(0, 2) == ['0', '0'];
    assert Hex(n / 16, 3) == ['0', '0'] + [HexDigit(n / 16)];
  }

  // ---------------------------------------------------------------- arrays and objects

  function Commas(parts: seq<string>): string {
    if parts == [] then [] else if |parts| == 1 then parts[0] else parts[0] + "," + Commas(parts[1..])
  }

  function Braces(parts: seq<string>): string {
    "{" + Commas(parts) + "}"
  }

  function Brackets(parts: seq<string>): string {
    "[" + Commas(parts) + "]"
  }

  function Quoted(s: string): string {
    "\"" + EscapeAll(s) + "\""
  }

  function Pair(key: string, text: string): string {
    Quoted(key) + ":" + text
  }

  lemma {:induction false} MembersText(members: seq<Member>, parts: seq<string>)
    requires |parts| == |members|
    requires forall i :: 0 <= i < |members| ==> parts[i] == Pair(members[i].key, Dump(members[i].value))
    ensures DumpMembers(members) == Commas(parts)
    decreases |members|
  {
    hide EscapeAll;
    if |members| > 1 {
      MembersText(members[1..], parts[1..]);
    }
  }

  lemma {:induction false} ObjectText(members: seq<Member>, parts: seq<string>)
    requires |parts| == |members|
    requires forall i :: 0 <= i < |members| ==> parts[i] == Pair(members[i].key, Dump(members[i].value))
    ensures Dump(Object(members)) == Braces(parts)
  {
    hide Pair;
    MembersText(members, parts);
  }

  lemma {:induction false} ElementsText(elements: seq<Json>, parts: seq<string>)
    requires |parts| == |elements|
    requires forall i :: 0 <= i < |elements| ==> parts[i] == Dump(elements[i])
    ensures DumpElements(elements) == Commas(parts)
    decreases |elements|
  {
    if |elements| > 1 {
      ElementsText(elements[1..], parts[1..]);
    }
  }

  lemma {:induction false} ArrayText(elements: seq<Json>, parts: seq<string>)
    requires |parts| == |elements|
    requires forall i :: 0 <= i < |elements| ==> parts[i] == Dump(elements[i])
    ensures Dump(Array(elements)) == Brackets(parts)
  {
    ElementsText(elements, parts);
  }

  // ---------------------------------------------------------------- the records of the log

  function AddText(c: AddOrder): string {
    Braces([Pair("symbol", Quoted(c.symbol)), Pair("order_id", IntText(c.orderId)),
            Pair("participant_id", Quoted(c.participant)), Pair("side", Word(SideName(c.side))),
            Pair("price_ticks", IntText(c.price)), Pair("quantity", IntText(c.quantity)),
            Pair("time_in_force", Word(TifName(c.tif))), Pair("stp", Word(StpName(c.stp)))])
  }

  function Word(name: string): string {
    "\"" + name + "\""
  }

  function SideName(side: Side): string {
    match side case Buy => "BUY" case Sell => "SELL"
  }

  function TifName(tif: TimeInForce): string {
    match tif case Gtc => "GTC" case Ioc => "IOC" case Fok => "FOK" case Market => "MARKET"
  }

  function StpName(stp: SelfTradePrevention): string {
    match stp
    case Allow => "NONE"
    case CancelAggressor => "CANCEL_AGGRESSOR"
    case CancelPassive => "CANCEL_PASSIVE"
    case CancelBoth => "CANCEL_BOTH"
  }

  function CancelText(c: CancelOrder): string {
    Braces([Pair("symbol", Quoted(c.symbol)), Pair("order_id", IntText(c.orderId))])
  }

  function ReplaceText(c: ReplaceOrder): string {
    Braces([Pair("symbol", Quoted(c.symbol)), Pair("order_id", IntText(c.orderId)),
            Pair("new_order_id", IntText(c.newOrderId)), Pair("new_price_ticks", IntText(c.newPrice)),
            Pair("new_quantity", IntText(c.newQuantity)), Pair("time_in_force", Word(TifName(c.tif)))])
  }

  function RecordText(command: Command): string {
    match command
    case Add(c) => Braces([Pair("type", Word("add")), Pair("command", AddText(c))])
    case Cancel(c) => Braces([Pair("type", Word("cancel")), Pair("command", CancelText(c))])
    case Replace(c) => Braces([Pair("type", Word("replace")), Pair("command", ReplaceText(c))])
  }

  predicate Letters(name: string) {
    forall i :: 0 <= i < |name| ==> 'A' <= name[i] <= 'Z' || name[i] == '_' || 'a' <= name[i] <= 'z'
  }

  lemma {:induction false} WordText(name: string)
    requires Letters(name)
    ensures Dump(String(name)) == Word(name)
  {
    PlainWritten(name);
  }

  lemma {:induction false} NamesText(side: Side, tif: TimeInForce, stp: SelfTradePrevention)
    ensures Dump(String(SideText(side))) == Word(SideName(side))
    ensures Dump(String(TifText(tif))) == Word(TifName(tif))
    ensures Dump(String(StpText(stp))) == Word(StpName(stp))
  {
    hide Dump, Word;
    WordText(SideText(side));
    WordText(TifText(tif));
    WordText(StpText(stp));
  }

  lemma {:induction false} StringDump(s: string)
    ensures Dump(String(s)) == Quoted(s)
  {
    hide EscapeAll;
  }

  lemma {:induction false} IntDump(n: int)
    ensures Dump(Int(n)) == IntText(n)
  {
    hide IntText;
  }

  lemma {:induction false} AddDump(c: AddOrder)
    ensures Dump(Object(AddMembers(c))) == AddText(c)
  {
    hide Dump, Pair, Braces, Quoted, Word, IntText, TifText, SideText, StpText, SideName, TifName, StpName;
    StringDump(c.symbol);
    IntDump(c.orderId);
    StringDump(c.participant);
    IntDump(c.price);
    IntDump(c.quantity);
    NamesText(c.side, c.tif, c.stp);
    ObjectText(AddMembers(c),
               [Pair("symbol", Quoted(c.symbol)), Pair("order_id", IntText(c.orderId)),
                Pair("participant_id", Quoted(c.participant)), Pair("side", Word(SideName(c.side))),
                Pair("price_ticks", IntText(c.price)), Pair("quantity", IntText(c.quantity)),
                Pair("time_in_force", Word(TifName(c.tif))), Pair("stp", Word(StpName(c.stp)))]);
  }

  lemma {:induction false} CancelDump(c: CancelOrder)
    ensures Dump(Object(CancelMembers(c))) == CancelText(c)
  {
    hide Dump, Pair, Braces, Quoted, IntText;
    StringDump(c.symbol);
    IntDump(c.orderId);
    ObjectText(CancelMembers(c), [Pair("symbol", Quoted(c.symbol)), Pair("order_id", IntText(c.orderId))]);
  }

  lemma {:induction false} ReplaceDump(c: ReplaceOrder)
    ensures Dump(Object(ReplaceMembers(c))) == ReplaceText(c)
  {
    hide Dump, Pair, Braces, Quoted, Word, IntText, TifText, TifName;
    StringDump(c.symbol);
    IntDump(c.orderId);
    IntDump(c.newOrderId);
    IntDump(c.newPrice);
    IntDump(c.newQuantity);
    NamesText(Buy, c.tif, Allow);
    ObjectText(ReplaceMembers(c),
               [Pair("symbol", Quoted(c.symbol)), Pair("order_id", IntText(c.orderId)),
                Pair("new_order_id", IntText(c.newOrderId)), Pair("new_price_ticks", IntText(c.newPrice)),
                Pair("new_quantity", IntText(c.newQuantity)), Pair("time_in_force", Word(TifName(c.tif)))]);
  }

  lemma {:induction false} Tags()
    ensures Dump(String("add")) == Word("add") && Dump(String("cancel")) == Word("cancel")
    ensures Dump(String("replace")) == Word("replace") && Dump(String("risk_reject")) == Word("risk_reject")
  {
    hide Dump, Word;
    WordText("add");
    WordText("cancel");
    WordText("replace");
    WordText("risk_reject");
  }

  /** What the log says of each command. */
  lemma {:induction false} CommandText(command: Command)
    ensures Dump(CommandRecord(command)) == RecordText(command)
  {
    hide Dump, Pair, Braces, Word, AddText, CancelText, ReplaceText, AddMembers, CancelMembers, ReplaceMembers;
    Tags();
    match command
    case Add(c) =>
      AddDump(c);
      ObjectText(CommandRecord(command).members, [Pair("type", Word("add")), Pair("command", AddText(c))]);
    case Cancel(c) =>
      CancelDump(c);
      ObjectText(CommandRecord(command).members, [Pair("type", Word("cancel")), Pair("command", CancelText(c))]);
    case Replace(c) =>
      ReplaceDump(c);
      ObjectText(CommandRecord(command).members, [Pair("type", Word("replace")), Pair("command", ReplaceText(c))]);
  }

  lemma {:induction false} RiskText(cmd: AddOrder, reason: string)
    ensures Dump(RiskRecord(cmd, reason)) ==
            Braces([Pair("type", Word("risk_reject")), Pair("command", AddText(cmd)), Pair("reason", Quoted(reason))])
  {
    hide Dump, Pair, Braces, Word, AddText, AddMembers, Quoted;
    Tags();
    AddDump(cmd);
    StringDump(reason);
    ObjectText(RiskRecord(cmd, reason).members,
               [Pair("type", Word("risk_reject")), Pair("command", AddText(cmd)), Pair("reason", Quoted(reason))]);
  }

  // ---------------------------------------------------------------- the lines of the log

  /** A line is the checksum in eight lower-case digits, a blank, the text and a newline. */
  lemma {:induction false} LineText(record: Json) returns (tag: string)
    ensures EncodeRecord(record) == tag + " " + Dump(record) + "\n" && |tag| == 8
    ensures forall i :: 0 <= i < 8 ==>
              tag[i] == "0123456789abcdef"[Struck(Checksum(Dump(record)), 16, 7 - i) % 16]
  {
    hide Dump, Checksum, Hex, Struck;
    tag := Hex(Checksum(Dump(record)), 8);
    HexDigits(Checksum(Dump(record)), 8);
  }

  // ---------------------------------------------------------------- snapshots

  function OrderText(o: RestingOrder): string {
    Braces([Pair("order_id", IntText(o.orderId)), Pair("participant_id", Quoted(o.participant)),
            Pair("remaining", IntText(o.remaining))])
  }

  function OrderTexts(orders: seq<RestingOrder>): (r: seq<string>)
    ensures |r| == |orders|
  {
    seq(|orders|, i requires 0 <= i < |orders| => OrderText(orders[i]))
  }

  function LevelText(price: int, orders: seq<RestingOrder>): string {
    Braces([Pair("price_ticks", IntText(price)), Pair("orders", Brackets(OrderTexts(orders)))])
  }

  /** A side is split where the price changes. */
  predicate SplitsByPrice(orders: seq<RestingOrder>, levels: seq<seq<RestingOrder>>) {
    if levels == [] then orders == []
    else
      var first := levels[0];
      && first != [] && |first| <= |orders| && orders[..|first|] == first
      && (forall i :: 0 <= i < |first| ==> first[i].price == first[0].price)
      && (|first| < |orders| ==> orders[|first|].price != first[0].price)
      && SplitsByPrice(orders[|first|..], levels[1..])
  }

  predicate SideWritten(orders: seq<RestingOrder>, levels: seq<seq<RestingOrder>>, parts: seq<string>) {
    && SplitsByPrice(orders, levels) && |parts| == |levels|
    && forall i :: 0 <= i < |levels| ==> levels[i] != [] && parts[i] == LevelText(levels[i][0].price, levels[i])
  }

  lemma {:induction false} OrderDump(o: RestingOrder)
    ensures Dump(OrderJson(o)) == OrderText(o)
  {
    hide Dump, Pair, Braces, Quoted, IntText;
    IntDump(o.orderId);
    StringDump(o.participant);
    IntDump(o.remaining);
    ObjectText(OrderJson(o).members,
               [Pair("order_id", IntText(o.orderId)), Pair("participant_id", Quoted(o.participant)),
                Pair("remaining", IntText(o.remaining))]);
  }

  lemma {:induction false} OrdersListed(orders: seq<RestingOrder>)
    ensures |OrdersJson(orders)| == |orders|
    ensures forall i :: 0 <= i < |orders| ==> OrdersJson(orders)[i] == OrderJson(orders[i])
    decreases |orders|
  {
    hide OrderJson;
    if orders != [] {
      OrdersListed(orders[1..]);
    }
  }

  lemma {:induction false} LevelDump(price: int, orders: seq<RestingOrder>)
    ensures Dump(LevelJson(price, orders)) == LevelText(price, orders)
  {
    hide Dump, Pair, Braces, Brackets, OrderText, OrderJson, IntText, OrdersJson;
    OrdersListed(orders);
    forall i | 0 <= i < |orders|
      ensures OrderTexts(orders)[i] == Dump(OrdersJson(orders)[i])
    {
      OrderDump(orders[i]);
    }
    ArrayText(OrdersJson(orders), OrderTexts(orders));
    IntDump(price);
    ObjectText(LevelJson(price, orders).members,
               [Pair("price_ticks", IntText(price)), Pair("orders", Brackets(OrderTexts(orders)))]);
  }

  /** The first run of equal prices ends where the price changes. */
  lemma {:induction false} RunEnds(orders: seq<RestingOrder>)
    requires orders != []
    ensures RunLength(orders) < |orders| ==> orders[RunLength(orders)].price != orders[0].price
  {
    if |orders| > 1 && orders[1].price == orders[0].price {
      RunEnds(orders[1..]);
    }
  }

  lemma {:induction false} SideDump(orders: seq<RestingOrder>) returns (levels: seq<seq<RestingOrder>>, parts: seq<string>)
    ensures SideWritten(orders, levels, parts)
    ensures |SideJson(orders)| == |parts| && forall i :: 0 <= i < |parts| ==> Dump(SideJson(orders)[i]) == parts[i]
    decreases |orders|
  {
    hide Dump, LevelJson, LevelText, RunLength;
    if orders == [] {
      levels, parts := [], [];
    } else {
      var k := RunLength(orders);
      RunEnds(orders);
      LevelDump(orders[0].price, orders[..k]);
      levels, parts := SideDump(orders[k..]);
      var first := orders[..k];
      assert ([first] + levels)[1..] == levels;
      levels, parts := [first] + levels, [LevelText(orders[0].price, first)] + parts;
    }
  }

  function BookText(bids: seq<string>, asks: seq<string>): string {
    Braces([Pair("bids", Brackets(bids)), Pair("asks", Brackets(asks))])
  }

  /** `text` is the document of one book. */
  ghost predicate BookWritten(b: Book, text: string) {
    exists bids, asks, bidLevels, askLevels ::
      SideWritten(b.bids, bidLevels, bids) && SideWritten(b.asks, askLevels, asks) && text == BookText(bids, asks)
  }

  lemma {:induction false} BookDump(b: Book)
    ensures BookWritten(b, Dump(BookJson(b)))
  {
    hide Dump, Pair, Braces, Brackets, SideJson, SideWritten;
    var bidLevels, bids := SideDump(b.bids);
    var askLevels, asks := SideDump(b.asks);
    ArrayText(SideJson(b.bids), bids);
    ArrayText(SideJson(b.asks), asks);
    ObjectText(BookJson(b).members, [Pair("bids", Brackets(bids)), Pair("asks", Brackets(asks))]);
  }

  lemma {:induction false} BooksDump(books: map<string, Book>, names: seq<string>) returns (texts: seq<string>)
    requires forall i :: 0 <= i < |names| ==> names[i] in books
    ensures |texts| == |names| == |BooksJson(books, names)|
    ensures forall i :: 0 <= i < |names| ==>
              && BookWritten(books[names[i]], texts[i])
              && BooksJson(books, names)[i].key == names[i] && Dump(BooksJson(books, names)[i].value) == texts[i]
  {
    hide Dump, BookJson, BookWritten;
    if names == [] {
      texts := [];
    } else {
      texts := BooksDump(books, names[1..]);
      BookDump(books[names[0]]);
      texts := [Dump(BookJson(books[names[0]]))] + texts;
    }
  }

  /** A snapshot: the event number, then each book under its symbol, each side best
      price first, one entry per price, its orders in time order. */
  lemma {:induction false} SnapshotText(e: Engine, names: seq<string>) returns (texts: seq<string>)
    requires Enumerates(names, e.books)
    ensures |texts| == |names| && forall i :: 0 <= i < |names| ==> BookWritten(e.books[names[i]], texts[i])
    ensures Dump(SnapshotJson(e, names)) ==
            Braces([Pair("sequence", IntText(e.sequence)),
                    Pair("books", Braces(seq(|names|, i requires 0 <= i < |names| => Pair(names[i], texts[i]))))])
  {
    hide Dump, Pair, Braces, BookWritten, IntText, BooksJson;
    texts := BooksDump(e.books, names);
    var named := seq(|names|, i requires 0 <= i < |names| => Pair(names[i], texts[i]));
    ObjectText(BooksJson(e.books, names), named);
    IntDump(e.sequence);
    ObjectText(SnapshotJson(e, names).members, [Pair("sequence", IntText(e.sequence)), Pair("books", Braces(named))]);
  }
}
