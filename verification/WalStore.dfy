/** The write-ahead log object: staging buffer, batch counter and file handle
    changed in place.  The file system is the `file` and `snapshot` fields. */
module WalStoreImpl {
  import opened Orders
  import opened JsonValue
  import opened JsonText
  import opened JsonCodec
  import opened Crc
  import opened Wal

  class WalStore {
    var file: string
    var snapshot: Option<string>
    var pending: string
    var batch: nat
    var open: bool

    ghost function Abs(): Store
      reads this
    {
      Store(file, pending, batch, snapshot, open)
    }

    /** Opens the log of a fresh directory. */
    constructor ()
      ensures Abs() == EMPTY_STORE
    {
      file, snapshot, pending, batch, open := [], None, [], 0, true;
    }

    method FlushPending()
      modifies this`file, this`pending, this`batch
      ensures Abs() == Flush(old(Abs()))
    {
      if !open {
        return;
      }
      if pending != [] {
        file := file + pending;
        pending := [];
      }
      batch := 0;
    }

    method AppendRecord(record: Json)
      modifies this`file, this`pending, this`batch
      ensures Abs() == Append(old(Abs()), record)
    {
      hide Dump, Checksum, Hex, EncodeRecord, Flush;
      var text := DumpText(record);
      var crc := TagOf(text);
      RecordText(pending, record, text, crc);
      pending := pending + Hex(crc, 8) + " " + text + "\n";
      batch := batch + 1;
      if batch >= COMMIT_BATCH {
        FlushPending();
      }
    }

    static method TagOf(text: string) returns (crc: nat)
      ensures crc == Checksum(text)
    {
      var word := ComputeCrc(text, 0);
      crc := word as int;
    }

    static lemma {:induction false} RecordText(before: string, record: Json, text: string, crc: nat)
      requires text == Dump(record) && crc == Checksum(text)
      ensures before + Hex(crc, 8) + " " + text + "\n" == before + EncodeRecord(record)
    {
      hide Dump, Checksum, Hex;
      var hex := Hex(crc, 8);
      assert before + hex + " " + text + "\n" == before + (hex + " " + text + "\n");
    }

    /** None where the JSON parser raises an exception. */
    method ReplayCommands() returns (r: Option<seq<Json>>)
      modifies this`file, this`pending, this`batch
      ensures Abs() == Flush(old(Abs()))
      ensures r == Replay(Flush(old(Abs())).file)
    {
      FlushPending();
      r := ReplayLines(file);
    }

    static method ReplayLines(text: string) returns (r: Option<seq<Json>>)
      ensures r == Replay(text)
    {
      hide ReadLine, NewlineAt;
      var commands := [];
      var left := text;
      while left != []
        invariant ReplayFrom(left, commands) == Replay(text)
        decreases |left|
      {
        var n := NewlineAt(left);
        var line := left[..n];
        left := if n < |left| then left[n + 1..] else [];
        var result := CheckLine(line);
        match result
        case Skip =>
        case Stop => return Some(commands);
        case Malformed => return None;
        case Record(j) => commands := commands + [j];
      }
      r := Some(commands);
    }

    static method CheckLine(raw: string) returns (result: LineResult)
      ensures result == ReadLine(raw)
    {
      hide ParseHex, Parse, Checksum;
      var line := raw;
      if line != [] && line[|line| - 1] == '\r' {
        line := line[..|line| - 1];
      }
      if |line| < 9 || line[8] != ' ' {
        return Skip;
      }
      var expected := Expected(line[..8]);
      var json := line[9..];
      var crc := TagOf(json);
      if crc != expected {
        return Stop;
      }
      var j := ParseText(json);
      result := if j.None? then Malformed else Record(j.value);
    }

    method SaveSnapshot(j: Json)
      modifies this
      ensures Abs() == Save(old(Abs()), j)
    {
      hide Dump;
      FlushPending();
      var text := DumpText(j);
      snapshot := Some(text);
      TruncateWal();
    }

    method TruncateWal()
      modifies this`file, this`pending, this`batch, this`open
      ensures Abs() == old(Abs()).(file := [], pending := [], batch := 0, open := true)
    {
      file, open := [], true;
      pending, batch := [], 0;
    }

    method LoadSnapshot() returns (r: Loaded)
      ensures r == Load(Abs())
    {
      hide Parse;
      if snapshot.None? || snapshot.value == [] {
        return Absent;
      }
      var j := ParseText(snapshot.value);
      r := if j.None? then Unreadable else Document(j.value);
    }
  }
}
