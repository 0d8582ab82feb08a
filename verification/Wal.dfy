/** The write-ahead log of one shard (src/recovery.cpp): checksummed lines, group
    commit, snapshots that truncate the log, and replay.  A file is its contents. */
module Wal {
  import opened Orders
  import opened JsonValue
  import opened JsonText
  import opened JsonLaws
  import opened Crc

  const COMMIT_BATCH := 64

  // ---------------------------------------------------------------- one record, one line

  /** "<crc:8 hex digits> <text>" */
  function Tagged(crc: nat, text: string): string {
    Hex(crc, 8) + " " + text
  }

  function Line(text: string): string {
    Tagged(Checksum(text), text)
  }

  function EncodeRecord(record: Json): string {
    Line(Dump(record)) + "\n"
  }

  function Encode(records: seq<Json>): string {
    if records == [] then [] else EncodeRecord(records[0]) + Encode(records[1..])
  }

  datatype LineResult = Skip | Stop | Malformed | Record(record: Json)

  /** strtoul of the first eight characters, truncated to 32 bits. */
  function Expected(s: string): int {
    var h := ParseHex(s);
    if h.Some? then h.value % 0x1_0000_0000 else 0
  }

  function ReadLine(raw: string): LineResult {
    var line := if raw != [] && raw[|raw| - 1] == '\r' then raw[..|raw| - 1] else raw;
    if |line| < 9 || line[8] != ' ' then Skip
    else if Checksum(line[9..]) != Expected(line[..8]) then Stop
    else
      var j := Parse(line[9..]);
      if j.None? then Malformed else Record(j.value)
  }

  function NewlineAt(s: string): (n: nat)
    ensures n <= |s| && (n < |s| ==> s[n] == '\n')
  {
    if s == [] || s[0] == '\n' then 0 else 1 + NewlineAt(s[1..])
  }

  /** The replay loop; None where the JSON parser raises an exception. */
  function ReplayFrom(file: string, out: seq<Json>): Option<seq<Json>>
    decreases |file|
  {
    if file == [] then Some(out) else
    var n := NewlineAt(file);
    var rest := if n < |file| then file[n + 1..] else [];
    match ReadLine(file[..n])
    case Skip => ReplayFrom(rest, out)
    case Stop => Some(out)
    case Malformed => None
    case Record(j) => ReplayFrom(rest, out + [j])
  }

  function Replay(file: string): Option<seq<Json>> {
    ReplayFrom(file, [])
  }

  // ---------------------------------------------------------------- the store

  datatype Store = Store(file: string, pending: string, batch: nat, snapshot: Option<string>, open: bool)

  const EMPTY_STORE := Store([], [], 0, None, true)

  function Flush(w: Store): Store {
    if !w.open then w else w.(file := w.file + w.pending, pending := [], batch := 0)
  }

  function Append(w: Store, record: Json): Store {
    var w1 := w.(pending := w.pending + EncodeRecord(record), batch := w.batch + 1);
    if w1.batch >= COMMIT_BATCH then Flush(w1) else w1
  }

  /** The temporary file is renamed over the snapshot, then the log is truncated and reopened. */
  function Save(w: Store, snapshot: Json): Store {
    Flush(w).(snapshot := Some(Dump(snapshot)), file := [], pending := [], batch := 0, open := true)
  }

  datatype Loaded = Absent | Unreadable | Document(value: Json)

  function Load(w: Store): Loaded {
    if w.snapshot.None? || w.snapshot.value == [] then Absent else
    var j := Parse(w.snapshot.value);
    if j.None? then Unreadable else Document(j.value)
  }

  // ---------------------------------------------------------------- lines

  lemma {:induction false} NewlineAfter(a: string, rest: string)
    requires Visible(a)
    ensures NewlineAt(a) == |a| && NewlineAt(a + "\n" + rest) == |a|
    decreases |a|
  {
    var s := a + "\n" + rest;
    if a == [] {
      assert s[0] == '\n';
    } else {
      assert s[0] == a[0] && s[1..] == a[1..] + "\n" + rest;
      NewlineAfter(a[1..], rest);
    }
  }

  lemma {:induction false} Pow16Eight()
    ensures Pow16(8) == 0x1_0000_0000
  {
    assert Pow16(4) == 65536 by { assert Pow16(1) == 16 && Pow16(2) == 256 && Pow16(3) == 4096; }
    assert Pow16(5) == 1048576 && Pow16(6) == 16777216 && Pow16(7) == 268435456;
  }

  lemma {:induction false} HexVisible(n: nat, width: nat)
    ensures Visible(Hex(n, width))
    decreases width
  {
    if width > 0 {
      HexVisible(n / 16, width - 1);
      HexDigitValue(n % 16);
    }
  }

  lemma {:induction false} TaggedShape(crc: nat, text: string)
    ensures |Tagged(crc, text)| == 9 + |text|
    ensures Tagged(crc, text)[8] == ' ' && Tagged(crc, text)[..8] == Hex(crc, 8) && Tagged(crc, text)[9..] == text
    ensures Visible(text) ==> Visible(Tagged(crc, text))
  {
    HexVisible(crc, 8);
  }

  lemma {:induction false} ExpectedIs(crc: nat)
    requires crc < 0x1_0000_0000
    ensures Expected(Hex(crc, 8)) == crc
  {
    Pow16Eight();
    ParseHexReadBack(crc, 8);
  }

  lemma {:induction false} LineShape(text: string)
    ensures |Line(text)| == 9 + |text|
    ensures Line(text)[8] == ' ' && Line(text)[9..] == text
    ensures Expected(Line(text)[..8]) == Checksum(text)
    ensures Visible(text) ==> Visible(Line(text))
  {
    TaggedShape(Checksum(text), text);
    ExpectedIs(Checksum(text));
  }

  /** A whole line gives back its record. */
  lemma {:induction false} LineReadBack(record: Json)
    requires Fits(record)
    ensures ReadLine(Line(Dump(record))) == Record(record)
  {
    hide Dump, Parse, Checksum, Line, Expected, Fits;
    DumpVisible(record);
    LineShape(Dump(record));
    RoundTrip(record);
  }

  /** A line cut short is skipped, or stops the replay if its text is caught by the checksum. */
  lemma {:induction false} TornLine(text: string, m: nat)
    requires Visible(text) && m < |Line(text)|
    requires m >= 9 ==> Checksum(text[..m - 9]) != Checksum(text)
    ensures var r := ReadLine(Line(text)[..m]); r.Skip? || r.Stop?
  {
    hide Line, Parse, Checksum, Expected;
    LineShape(text);
    var line := Line(text)[..m];
    if m >= 9 {
      assert line[..8] == Line(text)[..8] && line[9..] == text[..m - 9] && line[8] == ' ';
    }
  }

  // ---------------------------------------------------------------- torn tail

  /** How many of the records have their whole line within the first `n` bytes. */
  function Survivors(records: seq<Json>, n: nat): (k: nat)
    ensures k <= |records|
  {
    if records == [] || n < |Line(Dump(records[0]))| then 0
    else 1 + Survivors(records[1..], Past(n, |Line(Dump(records[0]))|))
  }

  /** The one torn record, if any, has a checksum unlike that of its torn text. */
  predicate TearShows(records: seq<Json>, n: nat) {
    if records == [] then true
    else
      var text := Dump(records[0]);
      if n < |Line(text)| then 9 <= n < 9 + |text| ==> Checksum(text[..n - 9]) != Checksum(text)
      else TearShows(records[1..], Past(n, |Line(text)|))
  }

  lemma {:induction false} FirstLine(line: string, rest: string, n: nat)
    requires Visible(line) && n <= |line| + 1 + |rest|
    ensures var file := (line + "\n" + rest)[..n];
            && (n <= |line| ==> file == line[..n] && NewlineAt(file) == n)
            && (n > |line| ==>
                  NewlineAt(file) == |line| && file[..|line|] == line && file[|line| + 1..] == rest[..n - |line| - 1])
  {
    var file := (line + "\n" + rest)[..n];
    if n <= |line| {
      assert file == line[..n];
      NewlineAfter(line[..n], "");
    } else {
      assert file == line + "\n" + rest[..n - |line| - 1];
      NewlineAfter(line, rest[..n - |line| - 1]);
    }
  }

  /** The tear is in the first line. */
  lemma {:induction false} ReplayTorn(line: string, rest: string, n: nat, out: seq<Json>)
    requires Visible(line) && n < |line|
    requires ReadLine(line[..n]).Skip? || ReadLine(line[..n]).Stop?
    ensures ReplayFrom((line + "\n" + rest)[..n], out) == Some(out)
  {
    var file := (line + "\n" + rest)[..n];
    FirstLine(line, rest, n);
    assert file[..n] == file;
  }

  /** The first line is whole. */
  lemma {:induction false} ReplayWhole(line: string, record: Json, rest: string, n: nat, out: seq<Json>)
    requires Visible(line) && line != [] && ReadLine(line) == Record(record)
    requires |line| <= n <= |line| + 1 + |rest|
    ensures ReplayFrom((line + "\n" + rest)[..n], out) ==
            ReplayFrom(rest[..if n > |line| then n - |line| - 1 else 0], out + [record])
  {
    var file := (line + "\n" + rest)[..n];
    FirstLine(line, rest, n);
    assert file[..|line|] == line;
    ReplayOne(file, |line|, record, out);
    assert rest[..0] == [];
  }

  lemma {:induction false} ReplayOne(file: string, l: nat, record: Json, out: seq<Json>)
    requires 0 < l <= |file| && NewlineAt(file) == l && ReadLine(file[..l]) == Record(record)
    ensures ReplayFrom(file, out) == ReplayFrom(if l < |file| then file[l + 1..] else [], out + [record])
  {
  }

  lemma {:induction false} SurvivorsStep(records: seq<Json>, k: nat, out: seq<Json>)
    requires records != [] && k <= |records| - 1
    ensures out + [records[0]] + records[1..][..k] == out + records[..k + 1]
  {
    assert records[..k + 1] == [records[0]] + records[1..][..k];
  }

  /** How far into the rest of the file position `n` is, once past a line of length `l`. */
  function Past(n: nat, l: nat): nat
    requires l <= n
  {
    if n > l then n - l - 1 else 0
  }

  lemma {:induction false} PrefixTorn(records: seq<Json>, n: nat, out: seq<Json>)
    requires records != [] && n < |Line(Dump(records[0]))| && TearShows(records, n)
    ensures ReplayFrom(Encode(records)[..n], out) == Some(out)
  {
    hide Line, Dump, ReadLine, Checksum, Fits, NewlineAt;
    var text, rest := Dump(records[0]), Encode(records[1..]);
    DumpVisible(records[0]);
    LineShape(text);
    TornLine(text, n);
    ReplayTorn(Line(text), rest, n, out);
    assert Encode(records) == Line(text) + "\n" + rest;
  }

  lemma {:induction false} PrefixWhole(records: seq<Json>, n: nat, out: seq<Json>)
    requires records != [] && Fits(records[0]) && |Line(Dump(records[0]))| <= n <= |Encode(records)|
    ensures Past(n, |Line(Dump(records[0]))|) <= |Encode(records[1..])|
    ensures ReplayFrom(Encode(records)[..n], out) ==
            ReplayFrom(Encode(records[1..])[..Past(n, |Line(Dump(records[0]))|)], out + [records[0]])
  {
    hide Line, Dump, ReadLine, Checksum, Fits, NewlineAt;
    var text, rest := Dump(records[0]), Encode(records[1..]);
    DumpVisible(records[0]);
    LineShape(text);
    LineReadBack(records[0]);
    assert Encode(records) == Line(text) + "\n" + rest;
    ReplayWhole(Line(text), records[0], rest, n, out);
  }

  lemma {:induction false} ReplayPrefix(records: seq<Json>, n: nat, out: seq<Json>)
    requires forall i :: 0 <= i < |records| ==> Fits(records[i])
    requires n <= |Encode(records)| && TearShows(records, n)
    ensures ReplayFrom(Encode(records)[..n], out) == Some(out + records[..Survivors(records, n)])
    decreases |records|
  {
    hide Line, Dump, ReadLine, Checksum, Fits, NewlineAt;
    if records == [] {
      assert out + records[..0] == out;
    } else if n < |Line(Dump(records[0]))| {
      PrefixTorn(records, n, out);
      assert out + records[..0] == out;
    } else {
      PrefixWhole(records, n, out);
      var n1 := Past(n, |Line(Dump(records[0]))|);
      ReplayPrefix(records[1..], n1, out + [records[0]]);
      SurvivorsStep(records, Survivors(records[1..], n1), out);
    }
  }

  /** Cut anywhere, the log replays to exactly the records whose line survived. */
  lemma {:induction false} TornTail(records: seq<Json>, n: nat)
    requires forall i :: 0 <= i < |records| ==> Fits(records[i])
    requires n <= |Encode(records)| && TearShows(records, n)
    ensures Replay(Encode(records)[..n]) == Some(records[..Survivors(records, n)])
  {
    ReplayPrefix(records, n, []);
    assert [] + records[..Survivors(records, n)] == records[..Survivors(records, n)];
  }

  lemma {:induction false} NothingTorn(records: seq<Json>)
    ensures TearShows(records, |Encode(records)|) && Survivors(records, |Encode(records)|) == |records|
    decreases |records|
  {
    if records != [] {
      assert |Encode(records)| == |Line(Dump(records[0]))| + 1 + |Encode(records[1..])|;
      NothingTorn(records[1..]);
    }
  }

  /** An intact log replays to every record. */
  lemma {:induction false} ReplayAll(records: seq<Json>)
    requires forall i :: 0 <= i < |records| ==> Fits(records[i])
    ensures Replay(Encode(records)) == Some(records)
  {
    NothingTorn(records);
    TornTail(records, |Encode(records)|);
    assert Encode(records)[..|Encode(records)|] == Encode(records) && records[..|records|] == records;
  }

  // ---------------------------------------------------------------- group commit

  lemma {:induction false} EncodeConcat(a: seq<Json>, b: seq<Json>)
    ensures Encode(a + b) == Encode(a) + Encode(b)
    decreases |a|
  {
    hide EncodeRecord;
    if a == [] {
      assert a + b == b;
    } else {
      assert (a + b)[0] == a[0] && (a + b)[1..] == a[1..] + b;
      EncodeConcat(a[1..], b);
    }
  }

  /** The store holds exactly `records`: some in the file, the last `batch` of them waiting. */
  predicate Holds(w: Store, records: seq<Json>) {
    && w.open && w.batch < COMMIT_BATCH && w.batch <= |records|
    && w.file == Encode(records[..|records| - w.batch])
    && w.pending == Encode(records[|records| - w.batch..])
  }

  lemma {:induction false} EncodeSplit(records: seq<Json>, k: nat)
    requires k <= |records|
    ensures Encode(records[..k]) + Encode(records[k..]) == Encode(records)
  {
    hide EncodeRecord;
    EncodeConcat(records[..k], records[k..]);
    assert records[..k] + records[k..] == records;
  }

  lemma {:induction false} AllWritten(w: Store, records: seq<Json>)
    requires w.open && w.batch == 0 && w.pending == [] && w.file == Encode(records)
    ensures Holds(w, records)
  {
    hide EncodeRecord;
    assert records[..|records|] == records && records[|records|..] == [];
  }

  lemma {:induction false} HoldsAll(w: Store, records: seq<Json>)
    requires Holds(w, records)
    ensures w.file + w.pending == Encode(records)
    ensures Flush(w).file == Encode(records) && Holds(Flush(w), records)
  {
    hide EncodeRecord;
    EncodeSplit(records, |records| - w.batch);
    AllWritten(Flush(w), records);
  }

  /** Before the batch is full nothing moves; `k` is where the waiting records start. */
  lemma {:induction false} StagedText(records: seq<Json>, k: nat, record: Json)
    requires k <= |records|
    ensures var all := records + [record];
            all[..k] == records[..k] && Encode(all[k..]) == Encode(records[k..]) + EncodeRecord(record)
  {
    hide EncodeRecord;
    var all := records + [record];
    assert all[..k] == records[..k] && all[k..] == records[k..] + [record];
    EncodeConcat(records[k..], [record]);
    assert Encode([record]) == EncodeRecord(record) + Encode([]);
  }

  lemma {:induction false} AppendHolds(w: Store, records: seq<Json>, record: Json)
    requires Holds(w, records)
    ensures Holds(Append(w, record), records + [record])
  {
    hide EncodeRecord;
    var all, k := records + [record], |records| - w.batch;
    StagedText(records, k, record);
    if w.batch + 1 >= COMMIT_BATCH {
      EncodeSplit(all, k);
      AllWritten(Append(w, record), all);
    } else {
      assert |all| - (w.batch + 1) == k;
    }
  }

  lemma {:induction false} SaveHolds(w: Store, snapshot: Json)
    ensures Holds(Save(w, snapshot), [])
  {
  }

  datatype Op = AppendOp(record: Json) | FlushOp | SaveOp(snapshot: Json)

  function Apply(w: Store, op: Op): Store {
    match op
    case AppendOp(record) => Append(w, record)
    case FlushOp => Flush(w)
    case SaveOp(snapshot) => Save(w, snapshot)
  }

  function ApplyAll(w: Store, ops: seq<Op>): Store
    decreases |ops|
  {
    if ops == [] then w else ApplyAll(Apply(w, ops[0]), ops[1..])
  }

  /** The records appended since the last snapshot. */
  function SinceSnapshot(ops: seq<Op>, records: seq<Json>): seq<Json>
    decreases |ops|
  {
    if ops == [] then records else
    SinceSnapshot(ops[1..], match ops[0]
                            case AppendOp(record) => records + [record]
                            case FlushOp => records
                            case SaveOp(_) => [])
  }

  /** On every run of appends, flushes and snapshots, the file followed by the
      staging buffer is the encoding of everything since the last snapshot, and at
      most 63 records are waiting. */
  lemma {:induction false} GroupCommit(w: Store, ops: seq<Op>, records: seq<Json>)
    requires Holds(w, records)
    ensures Holds(ApplyAll(w, ops), SinceSnapshot(ops, records))
    ensures ApplyAll(w, ops).file + ApplyAll(w, ops).pending == Encode(SinceSnapshot(ops, records))
    ensures ApplyAll(w, ops).batch <= 63
    decreases |ops|
  {
    if ops == [] {
      HoldsAll(w, records);
    } else {
      match ops[0]
      case AppendOp(record) =>
        AppendHolds(w, records, record);
        GroupCommit(Append(w, record), ops[1..], records + [record]);
      case FlushOp =>
        HoldsAll(w, records);
        GroupCommit(Flush(w), ops[1..], records);
      case SaveOp(snapshot) =>
        SaveHolds(w, snapshot);
        GroupCommit(Save(w, snapshot), ops[1..], []);
    }
  }

  function AppendAll(w: Store, records: seq<Json>): Store
    decreases |records|
  {
    if records == [] then w else AppendAll(Append(w, records[0]), records[1..])
  }

  lemma {:induction false} AppendsCount(w: Store, done: seq<Json>, records: seq<Json>)
    requires Holds(w, done) && w.batch == |done| % 64
    ensures Holds(AppendAll(w, records), done + records) && AppendAll(w, records).batch == |done + records| % 64
    decreases |records|
  {
    hide EncodeRecord, Encode, Holds;
    if records == [] {
      assert done + records == done;
    } else {
      AppendHolds(w, done, records[0]);
      BatchCounts(w, done, records[0]);
      AppendsCount(Append(w, records[0]), done + [records[0]], records[1..]);
      assert done + [records[0]] + records[1..] == done + records;
    }
  }

  lemma {:induction false} BatchCounts(w: Store, done: seq<Json>, record: Json)
    requires Holds(w, done) && w.batch == |done| % 64
    ensures Append(w, record).batch == |done + [record]| % 64
  {
    hide EncodeRecord, Encode;
  }

  /** The largest multiple of 64 up to `n`. */
  function Batches(n: nat): (k: nat)
    ensures k <= n && k % 64 == 0 && n - k == n % 64
  {
    n - n % 64
  }

  /** Records reach the file 64 at a time: of those appended to an empty log, the
      largest multiple of 64 is written, and the others wait. */
  lemma {:induction false} CommitsBySixtyFour(records: seq<Json>)
    ensures AppendAll(EMPTY_STORE, records).file == Encode(records[..Batches(|records|)])
    ensures AppendAll(EMPTY_STORE, records).pending == Encode(records[Batches(|records|)..])
  {
    hide EncodeRecord, AppendAll, Holds, Encode;
    EmptyHolds();
    AppendsCount(EMPTY_STORE, [], records);
    assert [] + records == records;
    HeldParts(AppendAll(EMPTY_STORE, records), records);
  }

  lemma {:induction false} EmptyHolds()
    ensures Holds(EMPTY_STORE, [])
  {
    hide EncodeRecord;
    var none: seq<Json> := [];
    assert none[..0] == none && none[0..] == none && Encode(none) == [];
  }

  lemma {:induction false} HeldParts(w: Store, records: seq<Json>)
    requires Holds(w, records)
    ensures w.batch <= |records|
    ensures w.file == Encode(records[..|records| - w.batch]) && w.pending == Encode(records[|records| - w.batch..])
  {
    hide Encode;
  }
}
