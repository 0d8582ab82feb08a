/** Why the pipeline needs every push to find room: a retry sends a message whose
    strings were moved away by the failed attempt. */
module FailedPush {
  import opened Orders
  import opened EngineSpec
  import opened EngineInvariants
  import opened EventLaws
  import opened ShardedSpec
  import opened Pipeline
  import ShardCount

  /** Every answer opens with an event about the command's own symbol. */
  lemma {:induction false} AnswerNamesSymbol(limits: RiskLimits, sh: Shard, msg: Message)
    requires WellFormed(sh.engine)
    ensures var events := Handle(limits, sh, msg).1.events;
            events != [] && events[0].event.symbol == SymbolOf(msg.command)
  {
    hide WellFormed, Step, CheckAdd, CommandRecord, RiskRecord;
    StepReports(sh.engine, msg.command);
  }

  /** The emptied command is never answered as the command itself would have been,
      whatever the state, unless the command has no symbol. */
  lemma {:induction false} EmptiedAnswersDiffer(limits: RiskLimits, sh: Shard, sh': Shard, msg: CommandMsg)
    requires WellFormed(sh.engine) && WellFormed(sh'.engine) && SymbolOf(msg.message.command) != ""
    ensures Answer(msg, Handle(limits, sh, msg.message).1) !=
            Answer(MovedFrom(msg), Handle(limits, sh', MovedFrom(msg).message).1)
  {
    hide WellFormed, Handle;
    AnswerNamesSymbol(limits, sh, msg.message);
    AnswerNamesSymbol(limits, sh', MovedFrom(msg).message);
  }

  // ---------------------------------------------------------------- one shard, one slot per queue

  function At(limits: RiskLimits, sh: Shard, lane: Lane, submitter: Submitter, running: bool,
              submitted: seq<CommandMsg>, clean: bool): Pipe
  {
    Pipe(limits, 1, [sh], [lane], submitter, running, submitted, clean)
  }

  lemma {:induction false} StepBack(p: Pipe, a: Action, q: Pipe, rest: seq<Action>)
    requires Enabled(p, a) && Do(p, a) == q && Runs(q, rest)
    ensures Runs(p, [a] + rest) && After(p, [a] + rest) == After(q, rest)
  {
    hide Enabled, Do;
    assert ([a] + rest)[1..] == rest;
  }

  lemma {:induction false} RunsJoin(p: Pipe, xs: seq<Action>, ys: seq<Action>)
    requires Runs(p, xs) && Runs(After(p, xs), ys)
    ensures Runs(p, xs + ys) && After(p, xs + ys) == After(After(p, xs), ys)
    decreases |xs|
  {
    hide Enabled, Do;
    if xs == [] {
      assert xs + ys == ys;
    } else {
      assert (xs + ys)[1..] == xs[1..] + ys;
      RunsJoin(Do(p, xs[0]), xs[1..], ys);
    }
  }

  lemma {:induction false} OnlyShard(msg: CommandMsg)
    ensures Target(msg, 1) == 0
  {
    hide ShardOf;
  }

  /** The worker's turn: look, take, execute, look again, publish; then the consumer drains. */
  const CYCLE := [Work(0), Work(0), Work(0), Work(0), Work(0), Drain(0)]

  lemma {:induction false} Execution(limits: RiskLimits, sh: Shard, msg: CommandMsg, drained: seq<ResultMsg>, submitter: Submitter,
                                   submitted: seq<CommandMsg>, clean: bool)
    requires submitter.Offering? ==> submitter.shard == 0
    ensures var p := At(limits, sh, Lane([], Executing(msg), [], drained, []), submitter, true, submitted, clean);
            var (sh1, response) := Handle(limits, sh, msg.message);
            && Enabled(p, Work(0))
            && Do(p, Work(0)) ==
               At(limits, sh1, Lane([], PushTest(Answer(msg, response)), [], drained, []), submitter, true, submitted, clean)
  {
    hide Handle, Submit;
    ShardCount.OneShard(limits, sh, msg.message);
  }

  /** A step of the worker other than executing. */
  lemma {:induction false} WorkStep(limits: RiskLimits, sh: Shard, lane: Lane, submitter: Submitter, submitted: seq<CommandMsg>,
                                  clean: bool)
    requires submitter.Offering? ==> submitter.shard == 0
    requires !lane.worker.Executing? && !lane.worker.NotStarted? && !lane.worker.Exited? && !PushFails(lane, 1)
    ensures var p := At(limits, sh, lane, submitter, true, submitted, clean);
            && Enabled(p, Work(0))
            && Do(p, Work(0)) == At(limits, sh, WorkOn(lane, true, 1), submitter, true, submitted, clean)
  {
    hide Submit, WorkOn;
  }

  lemma {:induction false} DrainStep(limits: RiskLimits, sh: Shard, drained: seq<ResultMsg>, r: ResultMsg, submitter: Submitter,
                                   submitted: seq<CommandMsg>, clean: bool)
    requires submitter.Offering? ==> submitter.shard == 0
    ensures var p := At(limits, sh, Lane([], LoopTest, [r], drained, []), submitter, true, submitted, clean);
            && Enabled(p, Drain(0))
            && Do(p, Drain(0)) == At(limits, sh, Lane([], LoopTest, [], drained + [r], []), submitter, true, submitted, clean)
  {
    hide Submit;
    assert [r][1..] == [];
  }

  lemma {:induction false} Cycle(limits: RiskLimits, sh: Shard, msg: CommandMsg, drained: seq<ResultMsg>, submitter: Submitter,
                               submitted: seq<CommandMsg>, clean: bool)
    requires submitter.Offering? ==> submitter.shard == 0
    ensures var p := At(limits, sh, Lane([msg], LoopTest, [], drained, []), submitter, true, submitted, clean);
            var (sh1, response) := Handle(limits, sh, msg.message);
            && Runs(p, CYCLE)
            && After(p, CYCLE) ==
               At(limits, sh1, Lane([], LoopTest, [], drained + [Answer(msg, response)], []), submitter, true, submitted, clean)
  {
    hide Handle, Submit, Runs, After, Do, Enabled, At;
    var (sh1, response) := Handle(limits, sh, msg.message);
    var r := Answer(msg, response);
    assert [] + [r] == [r] && [msg][1..] == [];
    var l0, l1 := Lane([msg], LoopTest, [], drained, []), Lane([msg], Polling, [], drained, []);
    var l2, l3 := Lane([], Executing(msg), [], drained, []), Lane([], PushTest(r), [], drained, []);
    var l4, l5 := Lane([], Pushing(r), [], drained, []), Lane([], LoopTest, [r], drained, []);
    var p0, p1 := At(limits, sh, l0, submitter, true, submitted, clean), At(limits, sh, l1, submitter, true, submitted, clean);
    var p2, p3 := At(limits, sh, l2, submitter, true, submitted, clean), At(limits, sh1, l3, submitter, true, submitted, clean);
    var p4, p5 := At(limits, sh1, l4, submitter, true, submitted, clean), At(limits, sh1, l5, submitter, true, submitted, clean);
    var p6 := At(limits, sh1, Lane([], LoopTest, [], drained + [r], []), submitter, true, submitted, clean);
    NoMore(p6);
    DrainStep(limits, sh1, drained, r, submitter, submitted, clean);
    StepBack(p5, Drain(0), p6, []);
    WorkStep(limits, sh1, l4, submitter, submitted, clean);
    StepBack(p4, Work(0), p5, [Drain(0)] + []);
    WorkStep(limits, sh1, l3, submitter, submitted, clean);
    StepBack(p3, Work(0), p4, [Work(0)] + ([Drain(0)] + []));
    Execution(limits, sh, msg, drained, submitter, submitted, clean);
    StepBack(p2, Work(0), p3, [Work(0)] + ([Work(0)] + ([Drain(0)] + [])));
    WorkStep(limits, sh, l1, submitter, submitted, clean);
    StepBack(p1, Work(0), p2, [Work(0)] + ([Work(0)] + ([Work(0)] + ([Drain(0)] + []))));
    WorkStep(limits, sh, l0, submitter, submitted, clean);
    StepBack(p0, Work(0), p1, [Work(0)] + ([Work(0)] + ([Work(0)] + ([Work(0)] + ([Drain(0)] + [])))));
    assert CYCLE == [Work(0)] + ([Work(0)] + ([Work(0)] + ([Work(0)] + ([Work(0)] + ([Drain(0)] + [])))));
  }

  lemma {:induction false} NoMore(p: Pipe)
    ensures Runs(p, []) && After(p, []) == p
  {
  }

  /** The submitter fills the queue, fails to push, is started, and retries. */
  function Prelude(a: Message, b: Message): seq<Action> {
    [Submission(a), Offer, Submission(b), Offer, Start]
  }

  function Script(a: Message, b: Message): seq<Action> {
    Prelude(a, b) + (CYCLE + ([Offer] + CYCLE))
  }

  lemma {:induction false} PreludeRuns(limits: RiskLimits, a: Message, b: Message)
    ensures var m1, m2 := CommandMsg(a, 1), CommandMsg(b, 2);
            && Runs(Initial(limits, 1, 1), Prelude(a, b))
            && After(Initial(limits, 1, 1), Prelude(a, b)) ==
               At(limits, EMPTY_SHARD, Lane([m1], LoopTest, [], [], []), Offering(0, MovedFrom(m2)), true, [m1, m2], false)
  {
    hide ShardOf, Runs, After;
    var m1, m2 := CommandMsg(a, 1), CommandMsg(b, 2);
    OnlyShard(m1);
    OnlyShard(m2);
    var p0 := Initial(limits, 1, 1);
    var p1 := At(limits, EMPTY_SHARD, IDLE_LANE, Offering(0, m1), false, [m1], true);
    var full := IDLE_LANE.(inbound := [m1]);
    var p2 := At(limits, EMPTY_SHARD, full, Idle, false, [m1], true);
    var p3 := At(limits, EMPTY_SHARD, full, Offering(0, m2), false, [m1, m2], true);
    var p4 := At(limits, EMPTY_SHARD, full, Offering(0, MovedFrom(m2)), false, [m1, m2], false);
    var p5 := At(limits, EMPTY_SHARD, full.(worker := LoopTest), Offering(0, MovedFrom(m2)), true, [m1, m2], false);
    assert p0 == At(limits, EMPTY_SHARD, IDLE_LANE, Idle, false, [], true);
    assert [] + [m1] == [m1] && [m1] + [m2] == [m1, m2];
    NoMore(p5);
    assert Do(p4, Start) == p5 by {
      assert Do(p4, Start).lanes == [full.(worker := LoopTest)];
    }
    StepBack(p4, Start, p5, []);
    StepBack(p3, Offer, p4, [Start] + []);
    StepBack(p2, Submission(b), p3, [Offer] + ([Start] + []));
    StepBack(p1, Offer, p2, [Submission(b)] + ([Offer] + ([Start] + [])));
    StepBack(p0, Submission(a), p1, [Offer] + ([Submission(b)] + ([Offer] + ([Start] + []))));
    assert Prelude(a, b) == [Submission(a)] + ([Offer] + ([Submission(b)] + ([Offer] + ([Start] + []))));
  }

  lemma {:induction false} TwoExpected(limits: RiskLimits, m1: CommandMsg, m2: CommandMsg)
    ensures var (sh1, r1) := Handle(limits, EMPTY_SHARD, m1.message);
            Expected(limits, 1, [m1, m2], 0) == [Answer(m1, r1), Answer(m2, Handle(limits, sh1, m2.message).1)]
  {
    hide Handle, Target, Expected, Sequential, Picked, Routed, Served;
    var all := [m1, m2];
    SequentialSplits(limits, 1, all, 0);
    OnlyShard(m1);
    OnlyShard(m2);
    RoutedOneMore([], m1, 0, 1);
    RoutedOneMore([m1], m2, 0, 1);
    RoutedNone(0, 1);
    assert [] + [m1] == [m1] && [m1] + [m2] == all;
    ServedNone(limits);
    ServedOneMore(limits, [], m1);
    ServedOneMore(limits, [m1], m2);
  }

  lemma {:induction false} RoutedNone(i: nat, n: nat)
    requires n > 0
    ensures Routed([], i, n) == []
  {
  }

  lemma {:induction false} ServedNone(limits: RiskLimits)
    ensures Served(limits, []) == (EMPTY_SHARD, [])
  {
  }

  /** `left` is `c` without its texts; numbers, side and modes stay. */
  predicate TextsGone(c: Command, left: Command) {
    match c
    case Add(a) =>
      && left.Add? && left.add.symbol == "" && left.add.participant == "" && left.add.orderId == a.orderId
      && left.add.side == a.side && left.add.price == a.price && left.add.quantity == a.quantity
      && left.add.tif == a.tif && left.add.stp == a.stp
    case Cancel(a) => left.Cancel? && left.cancel.symbol == "" && left.cancel.orderId == a.orderId
    case Replace(a) =>
      && left.Replace? && left.replace.symbol == "" && left.replace.orderId == a.orderId
      && left.replace.newOrderId == a.newOrderId && left.replace.newPrice == a.newPrice
      && left.replace.newQuantity == a.newQuantity && left.replace.tif == a.tif
  }

  /** For any two commands, the second with a symbol: one failed push, and what is
      drained is no longer what the sequential engine answers, but what it answers to the
      second command without its texts. */
  lemma {:induction false} FailedPushDiverges(limits: RiskLimits, a: Message, b: Message)
    requires SymbolOf(b.command) != ""
    ensures Runs(Initial(limits, 1, 1), Script(a, b))
    ensures var p := After(Initial(limits, 1, 1), Script(a, b));
            var all := Expected(limits, 1, p.submitted, 0);
            && |p.lanes| == 1 && |p.lanes[0].drained| == 2 == |all|
            && p.lanes[0].drained[0] == all[0] && p.lanes[0].drained[1] != all[1]
            && p.lanes[0].drained[1].correlation == all[1].correlation
            && exists left ::
                 && TextsGone(b.command, left)
                 && p.lanes[0].drained[1] ==
                    Answer(CommandMsg(Message(left, b.ingress), 2),
                           Handle(limits, Handle(limits, EMPTY_SHARD, a).0, Message(left, b.ingress)).1)
  {
    hide Handle, Runs, After, Expected, Do, WellFormed;
    var m1, m2 := CommandMsg(a, 1), CommandMsg(b, 2);
    var x2 := MovedFrom(m2);
    var (sh1, r1) := Handle(limits, EMPTY_SHARD, a);
    var (sh2, r2) := Handle(limits, sh1, x2.message);
    PreludeRuns(limits, a, b);
    Cycle(limits, EMPTY_SHARD, m1, [], Offering(0, x2), [m1, m2], false);
    Retry(limits, sh1, [Answer(m1, r1)], x2, [m1, m2]);
    Cycle(limits, sh1, x2, [Answer(m1, r1)], Idle, [m1, m2], false);
    var start := Initial(limits, 1, 1);
    var middle := After(start, Prelude(a, b));
    assert [] + [Answer(m1, r1)] == [Answer(m1, r1)];
    RunsJoin(After(middle, CYCLE), [Offer], CYCLE);
    RunsJoin(middle, CYCLE, [Offer] + CYCLE);
    RunsJoin(start, Prelude(a, b), CYCLE + ([Offer] + CYCLE));
    TwoExpected(limits, m1, m2);
    EmptyOk();
    HandleOk(limits, EMPTY_SHARD, a);
    EmptiedAnswersDiffer(limits, sh1, sh1, m2);
    assert TextsGone(b.command, x2.message.command) && x2 == CommandMsg(Message(x2.message.command, b.ingress), 2);
  }

  lemma {:induction false} Retry(limits: RiskLimits, sh: Shard, drained: seq<ResultMsg>, msg: CommandMsg, submitted: seq<CommandMsg>)
    ensures var p := At(limits, sh, Lane([], LoopTest, [], drained, []), Offering(0, msg), true, submitted, false);
            && Runs(p, [Offer])
            && After(p, [Offer]) == At(limits, sh, Lane([msg], LoopTest, [], drained, []), Idle, true, submitted, false)
  {
    hide Runs, After;
    var q := At(limits, sh, Lane([msg], LoopTest, [], drained, []), Idle, true, submitted, false);
    NoMore(q);
    assert [] + [msg] == [msg];
    StepBack(At(limits, sh, Lane([], LoopTest, [], drained, []), Offering(0, msg), true, submitted, false), Offer, q, []);
    assert [Offer] + [] == [Offer];
  }

  lemma {:induction false} EmptyOk()
    ensures WellFormed(EMPTY_ENGINE)
  {
  }

  lemma {:induction false} HandleOk(limits: RiskLimits, sh: Shard, msg: Message)
    requires WellFormed(sh.engine)
    ensures WellFormed(Handle(limits, sh, msg).0.engine)
  {
    hide WellFormed, Step, CommandRecord, RiskRecord, CheckAdd;
    Renumbered(sh.engine, sh.engine.(sequence := sh.engine.sequence + 1));
    StepOk(sh.engine, msg.command);
  }

  // ---------------------------------------------------------------- the same with room

  function CleanPrelude(a: Message): seq<Action> {
    [Submission(a), Offer, Start]
  }

  lemma {:induction false} CleanPreludeRuns(limits: RiskLimits, a: Message)
    ensures var m1 := CommandMsg(a, 1);
            && Runs(Initial(limits, 1, 1), CleanPrelude(a))
            && After(Initial(limits, 1, 1), CleanPrelude(a)) ==
               At(limits, EMPTY_SHARD, Lane([m1], LoopTest, [], [], []), Idle, true, [m1], true)
  {
    hide ShardOf, Runs, After, Submit;
    var m1 := CommandMsg(a, 1);
    OnlyShard(m1);
    var full := IDLE_LANE.(inbound := [m1]);
    var p0 := Initial(limits, 1, 1);
    var p1 := At(limits, EMPTY_SHARD, IDLE_LANE, Offering(0, m1), false, [m1], true);
    var p2 := At(limits, EMPTY_SHARD, full, Idle, false, [m1], true);
    var p3 := At(limits, EMPTY_SHARD, full.(worker := LoopTest), Idle, true, [m1], true);
    assert p0 == At(limits, EMPTY_SHARD, IDLE_LANE, Idle, false, [], true);
    assert [] + [m1] == [m1];
    NoMore(p3);
    assert Do(p2, Start) == p3 by {
      assert Do(p2, Start).lanes == [full.(worker := LoopTest)];
    }
    StepBack(p2, Start, p3, []);
    StepBack(p1, Offer, p2, [Start] + []);
    StepBack(p0, Submission(a), p1, [Offer] + ([Start] + []));
    assert CleanPrelude(a) == [Submission(a)] + ([Offer] + ([Start] + []));
  }

  /** For every command there is a run in which no push fails and its answer is drained. */
  lemma {:induction false} CleanRunExists(limits: RiskLimits, a: Message)
    ensures var actions := CleanPrelude(a) + CYCLE;
            && Runs(Initial(limits, 1, 1), actions)
            && var p := After(Initial(limits, 1, 1), actions);
               && p.clean && p.running && |p.lanes| == 1
               && p.lanes[0].drained == [Answer(CommandMsg(a, 1), Handle(limits, EMPTY_SHARD, a).1)]
  {
    hide Handle, Runs, After, Do;
    CleanPreludeRuns(limits, a);
    Cycle(limits, EMPTY_SHARD, CommandMsg(a, 1), [], Idle, [CommandMsg(a, 1)], true);
    RunsJoin(Initial(limits, 1, 1), CleanPrelude(a), CYCLE);
    assert [] + [Answer(CommandMsg(a, 1), Handle(limits, EMPTY_SHARD, a).1)] ==
           [Answer(CommandMsg(a, 1), Handle(limits, EMPTY_SHARD, a).1)];
  }
}
