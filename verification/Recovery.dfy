/** Recovery: after every run the log rebuilds a well-formed engine, and one that
    mirrors the live engine whenever the last snapshot kept its index; the event
    numbers differ by the number of commands refused since that snapshot. */
module Recovery {
  import opened Orders
  import opened EngineSpec
  import opened EngineInvariants
  import opened IndexLaws
  import opened Simulation
  import opened JsonValue
  import opened JsonLaws
  import opened JsonText
  import opened Snapshot
  import opened SnapshotLaws
  import opened RestoredEngine
  import opened Wal
  import opened ShardedSpec
  import opened Records

  // ---------------------------------------------------------------- what a shard can be rebuilt from

  ghost predicate AllFit(records: seq<Json>) {
    forall i :: 0 <= i < |records| ==> Fits(records[i])
  }

  /** Every prefix of the records replays to a well-formed engine. */
  ghost predicate Replays(base: Engine, records: seq<Json>) {
    forall k :: 0 <= k <= |records| ==>
      ApplyRecords(base, records[..k]).Some? && WellFormed(ApplyRecords(base, records[..k]).value)
  }

  /** The log holds `records`, and they replay on the snapshot. */
  ghost predicate Restartable(sh: Shard, records: seq<Json>) {
    && Holds(sh.store, records) && AllFit(records)
    && Base(sh.store).Some? && Replays(Base(sh.store).value, records)
  }

  /** `past[k]` is the live engine after the first `k` records, and mirrors what they rebuild. */
  ghost predicate Trail(base: Engine, records: seq<Json>, past: seq<Engine>, fs: seq<Renaming>) {
    && |past| == |fs| == |records| + 1
    && forall k :: 0 <= k <= |records| ==>
         ApplyRecords(base, records[..k]).Some? && Mirrors(All, fs[k], past[k], ApplyRecords(base, records[..k]).value)
  }

  /** Nothing but refusals happened since the last record, and `refused` of them since the snapshot. */
  ghost predicate Current(base: Engine, sh: Shard, records: seq<Json>, past: seq<Engine>, refused: nat) {
    && |past| == |records| + 1 && sh.engine == past[|records|].(sequence := sh.engine.sequence)
    && ApplyRecords(base, records).Some? && sh.engine.sequence == ApplyRecords(base, records).value.sequence + refused
  }

  /** What the live engine keeps besides. */
  predicate Healthy(e: Engine) {
    WellFormed(e) && BooksFit(e.books)
  }

  // ---------------------------------------------------------------- one more record

  lemma {:induction false} ApplyOneMore(e: Engine, records: seq<Json>, record: Json)
    requires ApplyRecords(e, records).Some?
    ensures ApplyRecords(e, records + [record]) ==
            var e1 := ApplyRecords(e, records).value;
            match DecodeRecord(record)
            case Invalid => None
            case Ignored => Some(e1)
            case Apply(command) => Some(Step(e1, command).engine)
    decreases |records|
  {
    hide DecodeRecord, Step;
    var all := records + [record];
    if records == [] {
      assert all == [record] && all[1..] == [];
    } else {
      assert all[0] == records[0] && all[1..] == records[1..] + [record];
      match DecodeRecord(records[0])
      case Ignored => ApplyOneMore(e, records[1..], record);
      case Apply(command) => ApplyOneMore(Step(e, command).engine, records[1..], record);
    }
  }

  /** Appending a record does not touch the snapshot. */
  lemma {:induction false} AppendKeepsBase(store: Store, record: Json)
    ensures Base(Append(store, record)) == Base(store)
  {
    hide EncodeRecord, LoadJson, Dump, Parse;
  }

  /** What is logged for a message that is not stale. */
  function LogRecord(limits: RiskLimits, command: Command): Json {
    var reason := RiskReason(limits, command);
    if reason.Some? then RiskRecord(command.add, reason.value) else CommandRecord(command)
  }

  lemma {:induction false} LogRecordReads(limits: RiskLimits, command: Command)
    requires CommandFits(command)
    ensures Fits(LogRecord(limits, command))
    ensures DecodeRecord(LogRecord(limits, command)) ==
            if RiskReason(limits, command).Some? then Ignored else Apply(command)
  {
    hide DecodeRecord, Fits, CommandFits, CommandRecord, RiskRecord, CheckAdd;
    if RiskReason(limits, command).Some? {
      RiskRecordFits(command.add, RiskReason(limits, command).value);
      RiskReadsBack(command.add, RiskReason(limits, command).value);
    } else {
      CommandRecordFits(command);
      CommandReadsBack(command);
    }
  }

  /** What handling a message does to the store and to the engine. */
  lemma {:induction false} HandleParts(limits: RiskLimits, sh: Shard, msg: Message)
    ensures var sh1, e := Handle(limits, sh, msg).0, sh.engine;
            && sh1.store == (if Stale(sh, msg) then sh.store else Append(sh.store, LogRecord(limits, msg.command)))
            && sh1.engine == if Refused(limits, sh, msg) then e.(sequence := e.sequence + 1) else Step(e, msg.command).engine
  {
    hide Step, Append, CheckAdd, CommandRecord, RiskRecord;
  }

  lemma {:induction false} HandleAdmitted(limits: RiskLimits, sh: Shard, msg: Message)
    requires !Stale(sh, msg)
    ensures Handle(limits, sh, msg).0.engine ==
            if RiskReason(limits, msg.command).Some? then sh.engine.(sequence := sh.engine.sequence + 1)
            else Step(sh.engine, msg.command).engine
  {
    hide Step, CheckAdd, CommandRecord, RiskRecord;
  }

  lemma {:induction false} Longer(records: seq<Json>, record: Json, k: nat)
    requires k <= |records| + 1
    ensures (records + [record])[..k] == if k <= |records| then records[..k] else records + [record]
  {
  }

  lemma {:induction false} ReplaysOneMore(base: Engine, records: seq<Json>, limits: RiskLimits, command: Command)
    requires Replays(base, records) && CommandFits(command)
    ensures Replays(base, records + [LogRecord(limits, command)])
  {
    hide WellFormed, ApplyRecords, DecodeRecord, Step, CommandFits, LogRecord, Fits, RiskReason;
    var record := LogRecord(limits, command);
    assert records[..|records|] == records;
    var e1 := ApplyRecords(base, records).value;
    LogRecordReads(limits, command);
    ApplyOneMore(base, records, record);
    StepOk(e1, command);
    forall k | 0 <= k <= |records| + 1
      ensures var r := ApplyRecords(base, (records + [record])[..k]); r.Some? && WellFormed(r.value)
    {
      Longer(records, record, k);
    }
  }

  lemma {:induction false} HandleRestartable(limits: RiskLimits, sh: Shard, msg: Message, records: seq<Json>)
    requires Restartable(sh, records) && CommandFits(msg.command)
    ensures Restartable(Handle(limits, sh, msg).0,
                        if Stale(sh, msg) then records else records + [LogRecord(limits, msg.command)])
  {
    hide Holds, Replays, Append, Base, Handle, LogRecord, Fits, CommandFits, DecodeRecord;
    HandleParts(limits, sh, msg);
    if !Stale(sh, msg) {
      var record := LogRecord(limits, msg.command);
      LogRecordReads(limits, msg.command);
      AppendHolds(sh.store, records, record);
      AppendKeepsBase(sh.store, record);
      ReplaysOneMore(Base(sh.store).value, records, limits, msg.command);
    }
  }

  lemma {:induction false} HandleHealthy(limits: RiskLimits, sh: Shard, msg: Message)
    requires Healthy(sh.engine) && CommandFits(msg.command)
    ensures Healthy(Handle(limits, sh, msg).0.engine)
  {
    hide WellFormed, BooksFit, Step, Append, CommandFits;
    Renumbered(sh.engine, sh.engine.(sequence := sh.engine.sequence + 1));
    StepOk(sh.engine, msg.command);
    StepFits(sh.engine, msg.command);
  }

  /** A record executed on both sides, or passed over on both, up to event numbers. */
  lemma {:induction false} RecordMirrors(limits: RiskLimits, sh: Shard, msg: Message, rebuilt: Engine, f: Renaming)
      returns (f1: Renaming)
    requires Mirrors(All, f, sh.engine, rebuilt) && !Stale(sh, msg)
    ensures var e1, skipped := Handle(limits, sh, msg).0.engine, RiskReason(limits, msg.command).Some?;
            var r1 := if skipped then rebuilt else Step(rebuilt, msg.command).engine;
            && Mirrors(All, f1, e1, r1)
            && e1.sequence - r1.sequence == sh.engine.sequence - rebuilt.sequence + if skipped then 1 else 0
  {
    hide Mirrors, Step, Handle, RiskReason, Stale;
    HandleAdmitted(limits, sh, msg);
    if RiskReason(limits, msg.command).Some? {
      f1 := f;
      RefusalMirrors(f, sh.engine, rebuilt);
    } else {
      f1 := CommandMirrors(f, sh.engine, rebuilt, msg.command);
    }
  }

  lemma {:induction false} CommandMirrors(f: Renaming, a: Engine, b: Engine, command: Command) returns (f1: Renaming)
    requires Mirrors(All, f, a, b)
    ensures var a1, b1 := Step(a, command).engine, Step(b, command).engine;
            Mirrors(All, f1, a1, b1) && a1.sequence - b1.sequence == a.sequence - b.sequence
  {
    hide Mirrors, Step, Addressed;
    EverythingAddressed(a, command);
    f1 := StepSame(All, f, a, b, command);
    StepNumbers(a, command);
    StepNumbers(b, command);
    AnswersAlike(a, b, command);
  }

  lemma {:induction false} EverythingAddressed(e: Engine, command: Command)
    ensures Addressed(All, e, command)
  {
  }

  lemma {:induction false} AnswersAlike(a: Engine, b: Engine, command: Command)
    requires SameAnswer(Step(a, command), Step(b, command))
    ensures |Step(a, command).events| == |Step(b, command).events|
  {
    hide Step;
  }

  /** An event number spent on a refusal is not spent again on replay. */
  lemma {:induction false} RefusalMirrors(f: Renaming, a: Engine, b: Engine)
    requires Mirrors(All, f, a, b)
    ensures Mirrors(All, f, a.(sequence := a.sequence + 1), b)
  {
    Renumber(All, f, a, b, a.sequence + 1, b.sequence);
  }

  lemma {:induction false} TrailOneMore(base: Engine, records: seq<Json>, past: seq<Engine>, fs: seq<Renaming>, record: Json,
                                      e: Engine, f: Renaming)
    requires Trail(base, records, past, fs)
    requires ApplyRecords(base, records + [record]).Some? && Mirrors(All, f, e, ApplyRecords(base, records + [record]).value)
    ensures Trail(base, records + [record], past + [e], fs + [f])
  {
    hide ApplyRecords, Mirrors;
    var all := records + [record];
    forall k | 0 <= k <= |all|
      ensures var r := ApplyRecords(base, all[..k]);
              r.Some? && Mirrors(All, (fs + [f])[k], (past + [e])[k], r.value)
    {
      Longer(records, record, k);
    }
  }

  lemma {:induction false} HandleTrail(limits: RiskLimits, base: Engine, sh: Shard, msg: Message, records: seq<Json>,
                                     past: seq<Engine>, fs: seq<Renaming>, refused: nat)
      returns (fs1: seq<Renaming>)
    requires CommandFits(msg.command)
    requires Trail(base, records, past, fs) && Current(base, sh, records, past, refused)
    ensures var sh1, stale := Handle(limits, sh, msg).0, Stale(sh, msg);
            var records1 := if stale then records else records + [LogRecord(limits, msg.command)];
            var past1 := if stale then past else past + [sh1.engine];
            && Trail(base, records1, past1, fs1)
            && Current(base, sh1, records1, past1, refused + if Refused(limits, sh, msg) then 1 else 0)
  {
    hide ApplyRecords, Mirrors, Handle, LogRecord, DecodeRecord, Step, Fits, CommandFits, RiskReason;
    HandleParts(limits, sh, msg);
    assert records[..|records|] == records;
    fs1 := fs;
    if !Stale(sh, msg) {
      var record := LogRecord(limits, msg.command);
      LogRecordReads(limits, msg.command);
      ApplyOneMore(base, records, record);
      var rebuilt := ApplyRecords(base, records).value;
      Renumber(All, fs[|records|], past[|records|], rebuilt, sh.engine.sequence, rebuilt.sequence);
      var f1 := RecordMirrors(limits, sh, msg, rebuilt, fs[|records|]);
      TrailOneMore(base, records, past, fs, record, Handle(limits, sh, msg).0.engine, f1);
      fs1 := fs + [f1];
    }
  }

  // ---------------------------------------------------------------- a snapshot

  /** After a snapshot the log is empty and recovery starts from a well-formed engine. */
  lemma {:induction false} SaveRestartable(sh: Shard, names: seq<string>)
    requires Healthy(sh.engine) && Fits64(sh.engine.sequence) && Enumerates(names, sh.engine.books)
    ensures Restartable(SaveShard(sh, names), [])
    ensures Base(SaveShard(sh, names).store) == LoadJson(0, SnapshotJson(sh.engine, names))
  {
    hide WellFormed, BooksFit, Enumerates, SnapshotJson, LoadJson, Fits, Parse, Dump, Holds;
    var j := SnapshotJson(sh.engine, names);
    SnapshotFits(sh.engine, names);
    RoundTrip(j);
    DumpHead(j);
    SaveHolds(sh.store, j);
    RestoredOk(sh.engine, names, 0);
    NothingApplied(LoadJson(0, j).value);
  }

  lemma {:induction false} NothingApplied(e: Engine)
    ensures ApplyRecords(e, []) == Some(e) && (WellFormed(e) ==> Replays(e, []))
  {
    hide WellFormed, Step, DecodeRecord;
  }

  lemma {:induction false} SaveTrail(sh: Shard, names: seq<string>) returns (f: Renaming)
    requires Healthy(sh.engine) && Fits64(sh.engine.sequence) && Enumerates(names, sh.engine.books)
    requires IndexesLast(sh.engine, names)
    ensures var sh1 := SaveShard(sh, names);
            && Base(sh1.store).Some?
            && Trail(Base(sh1.store).value, [], [sh1.engine], [f]) && Current(Base(sh1.store).value, sh1, [], [sh1.engine], 0)
  {
    hide WellFormed, BooksFit, Enumerates, SnapshotJson, LoadJson, Mirrors, ApplyRecords, Base, Restartable;
    SaveRestartable(sh, names);
    f := RestoreMirrors(sh.engine, names, 0);
    assert Reindexed(sh.engine, names) == sh.engine;
    NothingApplied(LoadJson(0, SnapshotJson(sh.engine, names)).value);
    var none: seq<Json> := [];
    assert none[..0] == none;
  }

  // ---------------------------------------------------------------- the whole system

  datatype SysOp = SubmitOp(msg: Message) | SnapshotOp(names: seq<seq<string>>)

  /** What the program is asked to do: commands with 64-bit numbers, and snapshots
      while event numbers fit 64 bits. */
  ghost predicate OpOk(shards: seq<Shard>, op: SysOp) {
    match op
    case SubmitOp(msg) => CommandFits(msg.command)
    case SnapshotOp(names) => NamesOk(shards, names) && forall i :: 0 <= i < |shards| ==> Fits64(shards[i].engine.sequence)
  }

  ghost function ApplyOp(limits: RiskLimits, shards: seq<Shard>, op: SysOp): (r: seq<Shard>)
    requires shards != [] && OpOk(shards, op)
    ensures |r| == |shards|
  {
    match op
    case SubmitOp(msg) => Submit(limits, shards, msg).0
    case SnapshotOp(names) => SnapshotAll(shards, names)
  }

  ghost predicate OpsOk(limits: RiskLimits, shards: seq<Shard>, ops: seq<SysOp>)
    requires shards != []
    decreases |ops|
  {
    ops == [] || (OpOk(shards, ops[0]) && OpsOk(limits, ApplyOp(limits, shards, ops[0]), ops[1..]))
  }

  ghost function RunOps(limits: RiskLimits, shards: seq<Shard>, ops: seq<SysOp>): (r: seq<Shard>)
    requires shards != [] && OpsOk(limits, shards, ops)
    ensures |r| == |shards|
    decreases |ops|
  {
    if ops == [] then shards else RunOps(limits, ApplyOp(limits, shards, ops[0]), ops[1..])
  }

  /** What is known of shard `i` since its last snapshot: the records logged, the live
      engine after each, the number of commands refused, and whether the snapshot kept
      the index. */
  datatype Since = Since(records: seq<Json>, past: seq<Engine>, refused: nat, faithful: bool)

  const AT_START := Since([], [EMPTY_ENGINE], 0, true)

  ghost function OpSince(limits: RiskLimits, shards: seq<Shard>, op: SysOp, i: nat, h: Since): Since
    requires i < |shards| && OpOk(shards, op)
  {
    match op
    case SubmitOp(msg) =>
      if ShardOf(SymbolOf(msg.command), |shards|) != i then h else
      var refused := h.refused + if Refused(limits, shards[i], msg) then 1 else 0;
      if Stale(shards[i], msg) then h.(refused := refused)
      else h.(records := h.records + [LogRecord(limits, msg.command)],
              past := h.past + [Handle(limits, shards[i], msg).0.engine], refused := refused)
    case SnapshotOp(names) => Since([], [shards[i].engine], 0, IndexesLast(shards[i].engine, names[i]))
  }

  ghost function RunSince(limits: RiskLimits, shards: seq<Shard>, ops: seq<SysOp>, i: nat, h: Since): Since
    requires i < |shards| && OpsOk(limits, shards, ops)
    decreases |ops|
  {
    if ops == [] then h
    else RunSince(limits, ApplyOp(limits, shards, ops[0]), ops[1..], i, OpSince(limits, shards, ops[0], i, h))
  }

  /** What every run keeps of a shard. */
  ghost predicate Kept(sh: Shard, h: Since, fs: seq<Renaming>) {
    && Restartable(sh, h.records) && Healthy(sh.engine)
    && (h.faithful ==>
          var base := Base(sh.store).value;
          Trail(base, h.records, h.past, fs) && Current(base, sh, h.records, h.past, h.refused))
  }

  lemma {:induction false} HandleKept(limits: RiskLimits, sh: Shard, msg: Message, h: Since, fs: seq<Renaming>)
      returns (fs1: seq<Renaming>)
    requires Kept(sh, h, fs) && CommandFits(msg.command)
    ensures var sh1 := Handle(limits, sh, msg).0;
            var refused := h.refused + if Refused(limits, sh, msg) then 1 else 0;
            Kept(sh1, if Stale(sh, msg) then h.(refused := refused)
                      else h.(records := h.records + [LogRecord(limits, msg.command)], past := h.past + [sh1.engine],
                              refused := refused), fs1)
  {
    hide Trail, Current, Healthy, Holds, AllFit, Replays, Base, Handle, CommandFits, LogRecord, Refused, Stale;
    fs1 := fs;
    HandleRestartable(limits, sh, msg, h.records);
    HandleHealthy(limits, sh, msg);
    HandleKeepsBase(limits, sh, msg);
    if h.faithful {
      fs1 := HandleTrail(limits, Base(sh.store).value, sh, msg, h.records, h.past, fs, h.refused);
    }
  }

  lemma {:induction false} HandleKeepsBase(limits: RiskLimits, sh: Shard, msg: Message)
    ensures Base(Handle(limits, sh, msg).0.store) == Base(sh.store)
  {
    hide Base, Handle, Append, LogRecord, Refused;
    HandleParts(limits, sh, msg);
    AppendKeepsBase(sh.store, LogRecord(limits, msg.command));
  }

  lemma {:induction false} SaveKept(sh: Shard, names: seq<string>) returns (fs: seq<Renaming>)
    requires Healthy(sh.engine) && Fits64(sh.engine.sequence) && Enumerates(names, sh.engine.books)
    ensures Kept(SaveShard(sh, names), Since([], [sh.engine], 0, IndexesLast(sh.engine, names)), fs)
  {
    hide Trail, Current, Healthy, Restartable, Base, Enumerates, IndexesLast, Save;
    fs := [];
    SaveRestartable(sh, names);
    if IndexesLast(sh.engine, names) {
      var f := SaveTrail(sh, names);
      fs := [f];
    }
  }

  lemma {:induction false} OpKept(limits: RiskLimits, shards: seq<Shard>, op: SysOp, i: nat, h: Since, fs: seq<Renaming>)
      returns (fs1: seq<Renaming>)
    requires i < |shards| && OpOk(shards, op) && Kept(shards[i], h, fs)
    ensures Kept(ApplyOp(limits, shards, op)[i], OpSince(limits, shards, op, i, h), fs1)
  {
    hide Handle, CommandFits, Enumerates, Refused, Stale, ShardOf, SaveShard, LogRecord, IndexesLast, Restartable, Trail, Current;
    fs1 := fs;
    match op
    case SubmitOp(msg) =>
      if ShardOf(SymbolOf(msg.command), |shards|) == i {
        fs1 := HandleKept(limits, shards[i], msg, h, fs);
      }
    case SnapshotOp(names) =>
      fs1 := SaveKept(shards[i], names[i]);
  }

  lemma {:induction false} RunKept(limits: RiskLimits, shards: seq<Shard>, ops: seq<SysOp>, i: nat, h: Since, fs: seq<Renaming>)
      returns (fs1: seq<Renaming>)
    requires i < |shards| && OpsOk(limits, shards, ops) && Kept(shards[i], h, fs)
    ensures Kept(RunOps(limits, shards, ops)[i], RunSince(limits, shards, ops, i, h), fs1)
    decreases |ops|
  {
    hide Kept, OpOk, OpSince, ApplyOp;
    fs1 := fs;
    if ops != [] {
      fs1 := OpKept(limits, shards, ops[0], i, h, fs);
      fs1 := RunKept(limits, ApplyOp(limits, shards, ops[0]), ops[1..], i, OpSince(limits, shards, ops[0], i, h), fs1);
    }
  }

  // ---------------------------------------------------------------- the start

  lemma {:induction false} EmptyHealthy()
    ensures Healthy(EMPTY_ENGINE) && Mirrors(All, map[], EMPTY_ENGINE, EMPTY_ENGINE)
  {
    hide BookOk, Points;
  }

  lemma {:induction false} EmptyBase()
    ensures Base(EMPTY_STORE) == Some(EMPTY_ENGINE)
  {
    hide Parse, LoadJson;
  }

  lemma {:induction false} StartKept()
    ensures Kept(EMPTY_SHARD, AT_START, [map[]])
  {
    hide Holds, Base, Fits, ApplyRecords, Replays, Mirrors, WellFormed, BooksFit;
    EmptyHealthy();
    EmptyHolds();
    EmptyBase();
    NothingApplied(EMPTY_ENGINE);
    var none: seq<Json> := [];
    assert none[..0] == none;
  }

  lemma {:induction false} RunFromStart(limits: RiskLimits, n: nat, ops: seq<SysOp>, i: nat) returns (fs: seq<Renaming>)
    requires i < n && OpsOk(limits, Start(n), ops)
    ensures Kept(RunOps(limits, Start(n), ops)[i], RunSince(limits, Start(n), ops, i, AT_START), fs)
  {
    hide OpsOk, RunOps, RunSince, Kept;
    StartKept();
    fs := RunKept(limits, Start(n), ops, i, AT_START, [map[]]);
  }

  // ---------------------------------------------------------------- what recovery gives

  lemma {:induction false} LogReplays(sh: Shard, records: seq<Json>)
    requires Restartable(sh, records)
    ensures ReplayShard(sh.store) == ApplyRecords(Base(sh.store).value, records)
  {
    hide Holds, ApplyRecords, Base, Flush, Replay, Encode, Replays;
    HoldsAll(sh.store, records);
    ReplayAll(records);
  }

  lemma {:induction false} WholeLog(sh: Shard, records: seq<Json>)
    requires Restartable(sh, records)
    ensures var r := ApplyRecords(Base(sh.store).value, records); r.Some? && WellFormed(r.value)
  {
    hide Holds, ApplyRecords, Base, AllFit, WellFormed;
    assert records[..|records|] == records;
  }

  /** After every run from an empty store, reused ids or not, every shard replays to a
      well-formed engine. */
  lemma {:induction false} RecoverySucceeds(limits: RiskLimits, n: nat, ops: seq<SysOp>, i: nat)
    requires i < n && OpsOk(limits, Start(n), ops)
    ensures var sh := RunOps(limits, Start(n), ops)[i];
            var r := ReplayShard(sh.store);
            && Base(sh.store).Some? && WellFormed(Base(sh.store).value)
            && r.Some? && WellFormed(r.value)
  {
    hide OpsOk, RunOps, RunSince, WellFormed, ReplayShard, Base, Holds, AllFit, ApplyRecords, Trail, Current;
    var fs := RunFromStart(limits, n, ops, i);
    var sh, h := RunOps(limits, Start(n), ops)[i], RunSince(limits, Start(n), ops, i, AT_START);
    LogReplays(sh, h.records);
    WholeLog(sh, h.records);
    BaseOk(sh, h.records);
  }

  lemma {:induction false} BaseOk(sh: Shard, records: seq<Json>)
    requires Restartable(sh, records)
    ensures WellFormed(Base(sh.store).value)
  {
    hide Holds, ApplyRecords, Base, AllFit, WellFormed;
    NothingApplied(Base(sh.store).value);
    assert records[..0] == [];
  }

  /** Recovery rebuilds every shard: after any run from an empty store whose last
      snapshot, if any, kept the index, replay gives an engine with the same books in
      the same order and the same index, whose event number is behind by exactly the
      refusals since that snapshot. */
  lemma {:induction false} RecoveryAgrees(limits: RiskLimits, n: nat, ops: seq<SysOp>, i: nat) returns (f: Renaming)
    requires i < n && OpsOk(limits, Start(n), ops) && RunSince(limits, Start(n), ops, i, AT_START).faithful
    ensures var sh := RunOps(limits, Start(n), ops)[i];
            var r := ReplayShard(sh.store);
            && r.Some? && Mirrors(All, f, sh.engine, r.value)
            && sh.engine.sequence - r.value.sequence == RunSince(limits, Start(n), ops, i, AT_START).refused
  {
    hide OpsOk, RunOps, RunSince, Mirrors, Healthy, ReplayShard, Holds, AllFit, Replays, Base, ApplyRecords;
    var fs := RunFromStart(limits, n, ops, i);
    var sh, h := RunOps(limits, Start(n), ops)[i], RunSince(limits, Start(n), ops, i, AT_START);
    LogReplays(sh, h.records);
    assert h.records[..|h.records|] == h.records;
    f := fs[|h.records|];
    var rebuilt := ApplyRecords(Base(sh.store).value, h.records).value;
    Renumber(All, f, h.past[|h.records|], rebuilt, sh.engine.sequence, rebuilt.sequence);
  }

  /** Straight after a snapshot the condition is exact: replay mirrors the live engine
      if and only if the snapshot kept the index. */
  lemma {:induction false} SnapshotRecoversExactly(sh: Shard, names: seq<string>)
    requires Healthy(sh.engine) && Fits64(sh.engine.sequence) && Enumerates(names, sh.engine.books)
    ensures var r := ReplayShard(SaveShard(sh, names).store);
            r.Some? && ((exists f :: Mirrors(All, f, sh.engine, r.value)) <==> IndexesLast(sh.engine, names))
  {
    hide WellFormed, BooksFit, Mirrors, IndexesLast, ReplayShard, SaveShard, Restartable, Base, LoadJson, SnapshotJson, ApplyRecords;
    SaveRestartable(sh, names);
    LogReplays(SaveShard(sh, names), []);
    MirrorsExactly(sh.engine, names, 0);
    NothingApplied(LoadJson(0, SnapshotJson(sh.engine, names)).value);
  }

  /** `a` is `b` with every event number higher by `d`. */
  predicate Numbered(d: int, a: Reply, b: Reply) {
    && a.trades == b.trades && a.fault == b.fault && |a.events| == |b.events|
    && forall i :: 0 <= i < |a.events| ==> a.events[i] == b.events[i].(sequence := b.events[i].sequence + d)
  }

  /** Mirroring engines at different event numbers answer alike for ever, apart from
      that difference. */
  lemma {:induction false} RunShifted(f: Renaming, a: Engine, b: Engine, commands: seq<Command>)
    requires Mirrors(All, f, a, b)
    ensures forall k :: 0 <= k < |commands| ==>
              Numbered(a.sequence - b.sequence, Replies(a, commands)[k], Replies(b, commands)[k])
    decreases |commands|
  {
    hide Mirrors, Step, Numbered, Addressed;
    if commands != [] {
      var d, first := a.sequence - b.sequence, commands[0];
      EverythingAddressed(a, first);
      var f0 := StepSame(All, f, a, b, first);
      ReplyShifted(a, b, first);
      var f1 := CommandMirrors(f, a, b, first);
      RunShifted(f1, Step(a, first).engine, Step(b, first).engine, commands[1..]);
      forall k | 0 <= k < |commands|
        ensures Numbered(d, Replies(a, commands)[k], Replies(b, commands)[k])
      {
        if k > 0 {
          assert Replies(a, commands)[k] == Replies(Step(a, first).engine, commands[1..])[k - 1];
          assert Replies(b, commands)[k] == Replies(Step(b, first).engine, commands[1..])[k - 1];
        }
      }
    }
  }

  lemma {:induction false} ReplyShifted(a: Engine, b: Engine, command: Command)
    requires SameAnswer(Step(a, command), Step(b, command))
    ensures Numbered(a.sequence - b.sequence, ReplyTo(a, command), ReplyTo(b, command))
  {
    hide Step;
  }

  /** What the rebuilt engine answers to every later command sequence is what the live
      engine would have answered, every event number lower by the same amount. */
  lemma {:induction false} RecoveredAnswers(limits: RiskLimits, n: nat, ops: seq<SysOp>, i: nat, after: seq<Command>)
    requires i < n && OpsOk(limits, Start(n), ops) && RunSince(limits, Start(n), ops, i, AT_START).faithful
    ensures var sh := RunOps(limits, Start(n), ops)[i];
            var r := ReplayShard(sh.store);
            r.Some? && forall k :: 0 <= k < |after| ==>
              Numbered(RunSince(limits, Start(n), ops, i, AT_START).refused, Replies(sh.engine, after)[k], Replies(r.value, after)[k])
  {
    hide OpsOk, RunOps, Mirrors, ReplayShard, RunSince, Replies, Numbered;
    var f := RecoveryAgrees(limits, n, ops, i);
    var sh := RunOps(limits, Start(n), ops)[i];
    RunShifted(f, sh.engine, ReplayShard(sh.store).value, after);
  }

  /** The store as a crash leaves it: nothing staged, the log cut at some byte. */
  function Crashed(store: Store, log: string): Store {
    store.(file := log, pending := [], batch := 0)
  }

  /** A log cut at any byte rebuilds a well-formed engine, and, if the snapshot kept the
      index, the live engine as it was right after the last record that survived. */
  lemma {:induction false} TornRecovery(limits: RiskLimits, n: nat, ops: seq<SysOp>, i: nat, cut: nat) returns (f: Renaming)
    requires i < n && OpsOk(limits, Start(n), ops)
    requires var records := RunSince(limits, Start(n), ops, i, AT_START).records;
             cut <= |Encode(records)| && TearShows(records, cut)
    ensures var sh, h := RunOps(limits, Start(n), ops)[i], RunSince(limits, Start(n), ops, i, AT_START);
            var r, k := ReplayShard(Crashed(sh.store, Encode(h.records)[..cut])), Survivors(h.records, cut);
            && sh.store.file + sh.store.pending == Encode(h.records)
            && r.Some? && WellFormed(r.value)
            && (h.faithful ==> |h.past| == |h.records| + 1 && Mirrors(All, f, h.past[k], r.value))
  {
    hide OpsOk, RunOps, RunSince, Mirrors, WellFormed, Healthy, Base, ApplyRecords, TearShows, Survivors, Encode, Current, Replay;
    var fs := RunFromStart(limits, n, ops, i);
    var sh, h := RunOps(limits, Start(n), ops)[i], RunSince(limits, Start(n), ops, i, AT_START);
    HoldsAll(sh.store, h.records);
    TornTail(h.records, cut);
    CrashedReplays(sh.store, Encode(h.records)[..cut]);
    f := if h.faithful then fs[Survivors(h.records, cut)] else map[];
  }

  lemma {:induction false} CrashedReplays(store: Store, log: string)
    requires Base(store).Some? && Replay(log).Some?
    ensures ReplayShard(Crashed(store, log)) == ApplyRecords(Base(store).value, Replay(log).value)
  {
    hide Replay, ApplyRecords, LoadJson, Parse;
    assert log + [] == log;
  }

  // ---------------------------------------------------------------- ids not reused while resting

  ghost predicate AllIndexed(shards: seq<Shard>) {
    forall i :: 0 <= i < |shards| ==> Healthy(shards[i].engine) && Indexed(shards[i].engine)
  }

  /** An accepted command introduces no id that is resting on its shard. */
  ghost predicate OpFresh(limits: RiskLimits, shards: seq<Shard>, op: SysOp)
    requires shards != []
  {
    && OpOk(shards, op)
    && (op.SubmitOp? ==>
          var sh := shards[ShardOf(SymbolOf(op.msg.command), |shards|)];
          Refused(limits, sh, op.msg) || Fresh(sh.engine, op.msg.command))
  }

  ghost predicate OpsFresh(limits: RiskLimits, shards: seq<Shard>, ops: seq<SysOp>)
    requires shards != []
    decreases |ops|
  {
    ops == [] || (OpFresh(limits, shards, ops[0]) && OpsFresh(limits, ApplyOp(limits, shards, ops[0]), ops[1..]))
  }

  lemma {:induction false} HandleIndexed(limits: RiskLimits, sh: Shard, msg: Message)
    requires Healthy(sh.engine) && Indexed(sh.engine) && CommandFits(msg.command)
    requires Refused(limits, sh, msg) || Fresh(sh.engine, msg.command)
    ensures Healthy(Handle(limits, sh, msg).0.engine) && Indexed(Handle(limits, sh, msg).0.engine)
  {
    hide WellFormed, BooksFit, BookIndexed, Step, Append, CommandFits, Fresh, RiskReason;
    HandleHealthy(limits, sh, msg);
    if !Refused(limits, sh, msg) {
      StepIndexed(sh.engine, msg.command);
    }
  }

  lemma {:induction false} OpIndexed(limits: RiskLimits, shards: seq<Shard>, op: SysOp, i: nat, h: Since)
    requires i < |shards| && AllIndexed(shards) && OpFresh(limits, shards, op) && h.faithful
    ensures AllIndexed(ApplyOp(limits, shards, op)) && OpSince(limits, shards, op, i, h).faithful
  {
    hide Indexed, Handle, CommandFits, Refused, Stale, Fresh, Enumerates, ShardOf, LogRecord, IndexesLast, WellFormed, BooksFit;
    match op
    case SubmitOp(msg) =>
      var s := ShardOf(SymbolOf(msg.command), |shards|);
      HandleIndexed(limits, shards[s], msg);
    case SnapshotOp(names) =>
      IndexedIndexesLast(shards[i].engine, names[i]);
  }

  /** On runs that never reuse a resting id every snapshot keeps the index, so recovery agrees. */
  lemma {:induction false} FreshOpsFaithful(limits: RiskLimits, shards: seq<Shard>, ops: seq<SysOp>, i: nat, h: Since)
    requires i < |shards| && AllIndexed(shards) && OpsFresh(limits, shards, ops) && h.faithful
    ensures OpsOk(limits, shards, ops) && RunSince(limits, shards, ops, i, h).faithful
    decreases |ops|
  {
    hide AllIndexed, OpOk, ApplyOp, OpSince;
    if ops != [] {
      OpIndexed(limits, shards, ops[0], i, h);
      FreshOpsFaithful(limits, ApplyOp(limits, shards, ops[0]), ops[1..], i, OpSince(limits, shards, ops[0], i, h));
    }
  }
}
