/** What replay makes of lines that are not intact records: some are passed over,
    some end it, and text that is not JSON aborts it. */
module ReplayLaws {
  import opened Orders
  import opened JsonValue
  import opened JsonText
  import opened JsonLaws
  import opened Crc
  import opened Wal

  predicate OneLine(s: string) {
    forall i :: 0 <= i < |s| ==> s[i] != '\n'
  }

  lemma {:induction false} LineEnds(line: string, rest: string)
    requires OneLine(line)
    ensures NewlineAt(line + "\n" + rest) == |line|
    decreases |line|
  {
    var s := line + "\n" + rest;
    if line == [] {
      assert s[0] == '\n';
    } else {
      assert s[0] == line[0] && s[1..] == line[1..] + "\n" + rest;
      LineEnds(line[1..], rest);
    }
  }

  /** Replay takes a file line by line. */
  lemma {:induction false} ReplayLine(line: string, rest: string, out: seq<Json>)
    requires OneLine(line)
    ensures ReplayFrom(line + "\n" + rest, out) ==
            match ReadLine(line)
            case Skip => ReplayFrom(rest, out)
            case Stop => Some(out)
            case Malformed => None
            case Record(j) => ReplayFrom(rest, out + [j])
  {
    hide ReadLine;
    var file := line + "\n" + rest;
    LineEnds(line, rest);
    assert file[..|line|] == line && file[|line| + 1..] == rest;
  }

  lemma {:induction false} VisibleLine(record: Json)
    ensures OneLine(Line(Dump(record)))
  {
    hide Dump, Line;
    DumpVisible(record);
    LineShape(Dump(record));
  }

  /** Intact records are read, and replay goes on behind them. */
  lemma {:induction false} ReplayPast(records: seq<Json>, tail: string, out: seq<Json>)
    requires forall i :: 0 <= i < |records| ==> Fits(records[i])
    ensures ReplayFrom(Encode(records) + tail, out) == ReplayFrom(tail, out + records)
    decreases |records|
  {
    hide Line, Dump, ReadLine, ReplayFrom, Fits, OneLine;
    if records == [] {
      assert Encode(records) + tail == tail && out + records == out;
    } else {
      var line, rest := Line(Dump(records[0])), Encode(records[1..]) + tail;
      assert Encode(records) + tail == line + "\n" + rest;
      VisibleLine(records[0]);
      LineReadBack(records[0]);
      ReplayLine(line, rest, out);
      ReplayPast(records[1..], tail, out + [records[0]]);
      assert out + [records[0]] + records[1..] == out + records;
    }
  }

  /** A line without its carriage return, if it ends in one. */
  function Trimmed(line: string): string {
    if line != [] && line[|line| - 1] == '\r' then line[..|line| - 1] else line
  }

  /** A line that is too short to be a record, or has no blank behind the checksum,
      is passed over. */
  lemma {:induction false} JunkPassedOver(before: seq<Json>, junk: string, after: seq<Json>)
    requires forall i :: 0 <= i < |before| ==> Fits(before[i])
    requires forall i :: 0 <= i < |after| ==> Fits(after[i])
    requires OneLine(junk) && (|Trimmed(junk)| < 9 || Trimmed(junk)[8] != ' ')
    ensures Replay(Encode(before) + junk + "\n" + Encode(after)) == Some(before + after)
  {
    hide ReplayFrom, Encode, Fits, OneLine, Parse, Checksum, Expected;
    var tail := junk + "\n" + Encode(after);
    assert Encode(before) + junk + "\n" + Encode(after) == Encode(before) + tail;
    ReplayPast(before, tail, []);
    assert [] + before == before;
    ReplayLine(junk, Encode(after), before);
    ReplayPast(after, [], before);
    assert Encode(after) + [] == Encode(after);
    NothingLeft(before + after);
  }

  lemma {:induction false} NothingLeft(out: seq<Json>)
    ensures ReplayFrom([], out) == Some(out)
  {
  }

  /** A record whose checksum does not match ends the replay: what follows is not even looked at. */
  lemma {:induction false} MismatchEnds(before: seq<Json>, crc: nat, text: string, after: string)
    requires forall i :: 0 <= i < |before| ==> Fits(before[i])
    requires Visible(text) && crc < 0x1_0000_0000 && crc != Checksum(text)
    ensures Replay(Encode(before) + Tagged(crc, text) + "\n" + after) == Some(before)
  {
    hide ReplayFrom, Encode, Fits, Parse, Checksum, Expected, Tagged, Hex;
    var line := Tagged(crc, text);
    assert Encode(before) + line + "\n" + after == Encode(before) + (line + "\n" + after);
    TaggedShape(crc, text);
    ExpectedIs(crc);
    assert ReadLine(line) == Stop;
    ReplayPast(before, line + "\n" + after, []);
    assert [] + before == before;
    ReplayLine(line, after, before);
  }

  /** A record whose checksum matches but whose text does not parse aborts the replay. */
  lemma {:induction false} BadTextAborts(before: seq<Json>, text: string, after: string)
    requires forall i :: 0 <= i < |before| ==> Fits(before[i])
    requires Visible(text) && Parse(text).None?
    ensures Replay(Encode(before) + Line(text) + "\n" + after) == None
  {
    hide ReplayFrom, Encode, Fits, Parse, Checksum, Expected, Line;
    var line := Line(text);
    assert Encode(before) + line + "\n" + after == Encode(before) + (line + "\n" + after);
    LineShape(text);
    assert ReadLine(line) == Malformed;
    ReplayPast(before, line + "\n" + after, []);
    assert [] + before == before;
    ReplayLine(line, after, before);
  }

  /** A log whose lines end in "\r\n". */
  function EncodeCrLf(records: seq<Json>): string {
    if records == [] then [] else Line(Dump(records[0])) + "\r\n" + EncodeCrLf(records[1..])
  }

  lemma {:induction false} CrReadBack(record: Json)
    requires Fits(record)
    ensures OneLine(Line(Dump(record)) + "\r") && ReadLine(Line(Dump(record)) + "\r") == Record(record)
  {
    hide Line, Dump, Parse, Checksum, Expected, Fits;
    var line := Line(Dump(record));
    DumpVisible(record);
    LineShape(Dump(record));
    RoundTrip(record);
    assert (line + "\r")[..|line|] == line;
  }

  lemma {:induction false} CrLfFrom(records: seq<Json>, out: seq<Json>)
    requires forall i :: 0 <= i < |records| ==> Fits(records[i])
    ensures ReplayFrom(EncodeCrLf(records), out) == Some(out + records)
    decreases |records|
  {
    hide Line, Dump, ReadLine, ReplayFrom, Fits, OneLine;
    if records == [] {
      NothingLeft(out);
      assert out + records == out;
    } else {
      var line, rest := Line(Dump(records[0])) + "\r", EncodeCrLf(records[1..]);
      assert EncodeCrLf(records) == line + "\n" + rest;
      CrReadBack(records[0]);
      ReplayLine(line, rest, out);
      CrLfFrom(records[1..], out + [records[0]]);
      assert out + [records[0]] + records[1..] == out + records;
    }
  }

  lemma {:induction false} CrLfTolerated(records: seq<Json>)
    requires forall i :: 0 <= i < |records| ==> Fits(records[i])
    ensures Replay(EncodeCrLf(records)) == Some(records)
  {
    CrLfFrom(records, []);
    assert [] + records == records;
  }
}
