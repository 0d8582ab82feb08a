/** What stopping the pipeline does, and what a failed push leaves behind. */
module Shutdown {
  import opened ShardedSpec
  import opened Pipeline
  import opened FailedPush

  // ---------------------------------------------------------------- workers come to an end

  /** The turns a worker can still take once the pipeline is stopped. */
  function TurnsLeft(w: Worker): nat {
    match w
    case NotStarted => 0
    case Exited => 0
    case LoopTest => 1
    case PushTest(_) => 2
    case Pushing(_) => 3
    case Executing(_) => 3
    case Polling => 4
  }

  function Turns(actions: seq<Action>, i: nat): nat {
    if actions == [] then 0 else (if actions[0] == Work(i) then 1 else 0) + Turns(actions[1..], i)
  }

  lemma {:induction false} StoppedStep(p: Pipe, a: Action, i: nat)
    requires Shaped(p) && Enabled(p, a) && !p.running && i < |p.lanes| && !p.lanes[i].worker.NotStarted?
    ensures var q := Do(p, a);
            && Shaped(q) && !q.running && |q.lanes| == |p.lanes| && !q.lanes[i].worker.NotStarted?
            && TurnsLeft(q.lanes[i].worker) + (if a == Work(i) then 1 else 0) <= TurnsLeft(p.lanes[i].worker)
  {
    hide Submit, Target;
  }

  /** Once the pipeline is stopped, a worker takes at most four more turns, whatever the
      others do, and has then left its loop: joining it does not wait for ever. */
  lemma {:induction false} StopEnds(p: Pipe, actions: seq<Action>, i: nat)
    requires Shaped(p) && !p.running && i < |p.lanes| && !p.lanes[i].worker.NotStarted? && Runs(p, actions)
    ensures var q := After(p, actions);
            && |q.lanes| == |p.lanes|
            && Turns(actions, i) + TurnsLeft(q.lanes[i].worker) <= TurnsLeft(p.lanes[i].worker) <= 4
            && (q.lanes[i].worker.Exited? || Enabled(q, Work(i)))
    decreases |actions|
  {
    hide Do;
    if actions != [] {
      hide Enabled;
      StoppedStep(p, actions[0], i);
      StopEnds(Do(p, actions[0]), actions[1..], i);
    }
  }

  // ---------------------------------------------------------------- what a stop can lose

  /** The command is taken and executed, then the pipeline stops before its result is published. */
  const LAST_TURNS := [Work(0), Work(0), Work(0), Stop, Work(0), Work(0)]

  lemma {:induction false} Stopping(limits: RiskLimits, sh: Shard, r: ResultMsg, submitted: seq<CommandMsg>)
    ensures var p := At(limits, sh, Lane([], PushTest(r), [], [], []), Idle, true, submitted, true);
            && Runs(p, [Stop, Work(0), Work(0)])
            && After(p, [Stop, Work(0), Work(0)]) == At(limits, sh, Lane([], Exited, [], [], [r]), Idle, false, submitted, true)
  {
    hide Submit, Runs, After;
    var p := At(limits, sh, Lane([], PushTest(r), [], [], []), Idle, true, submitted, true);
    var p1 := p.(running := false);
    var p2 := At(limits, sh, Lane([], LoopTest, [], [], [r]), Idle, false, submitted, true);
    var p3 := At(limits, sh, Lane([], Exited, [], [], [r]), Idle, false, submitted, true);
    assert [] + [r] == [r];
    NoMore(p3);
    StepBack(p2, Work(0), p3, []);
    StepBack(p1, Work(0), p2, [Work(0)] + []);
    StepBack(p, Stop, p1, [Work(0)] + ([Work(0)] + []));
    assert [Stop, Work(0), Work(0)] == [Stop] + ([Work(0)] + ([Work(0)] + []));
  }

  /** A stop can lose the result of a command that was executed: the bound of one lost
      result per shard is reached, for every command. */
  lemma {:induction false} StopLosesResult(limits: RiskLimits, a: Message)
    ensures var actions := CleanPrelude(a) + LAST_TURNS;
            && Runs(Initial(limits, 1, 1), actions)
            && var p := After(Initial(limits, 1, 1), actions);
               && |p.lanes| == 1 && p.clean && p.lanes[0].worker.Exited?
               && p.lanes[0].drained == [] && p.lanes[0].outbound == []
               && p.lanes[0].lost == [Answer(CommandMsg(a, 1), Handle(limits, EMPTY_SHARD, a).1)]
               && p.shards == [Handle(limits, EMPTY_SHARD, a).0]
  {
    hide Handle, Submit, Runs, After, Do, Enabled;
    var msg := CommandMsg(a, 1);
    var (sh1, response) := Handle(limits, EMPTY_SHARD, a);
    var r := Answer(msg, response);
    CleanPreludeRuns(limits, a);
    assert [msg][1..] == [];
    var l0, l1, l2 := Lane([msg], LoopTest, [], [], []), Lane([msg], Polling, [], [], []), Lane([], Executing(msg), [], [], []);
    var p0 := At(limits, EMPTY_SHARD, l0, Idle, true, [msg], true);
    var p1 := At(limits, EMPTY_SHARD, l1, Idle, true, [msg], true);
    var p2 := At(limits, EMPTY_SHARD, l2, Idle, true, [msg], true);
    var p3 := At(limits, sh1, Lane([], PushTest(r), [], [], []), Idle, true, [msg], true);
    var end := [Stop, Work(0), Work(0)];
    Stopping(limits, sh1, r, [msg]);
    Execution(limits, EMPTY_SHARD, msg, [], Idle, [msg], true);
    StepBack(p2, Work(0), p3, end);
    WorkStep(limits, EMPTY_SHARD, l1, Idle, [msg], true);
    StepBack(p1, Work(0), p2, [Work(0)] + end);
    WorkStep(limits, EMPTY_SHARD, l0, Idle, [msg], true);
    StepBack(p0, Work(0), p1, [Work(0)] + ([Work(0)] + end));
    assert LAST_TURNS == [Work(0)] + ([Work(0)] + ([Work(0)] + end));
    RunsJoin(Initial(limits, 1, 1), CleanPrelude(a), LAST_TURNS);
  }

  // ---------------------------------------------------------------- what a failed push of a result leaves

  lemma {:induction false} WorkerTurn(p: Pipe, i: nat)
    requires Shaped(p) && p.running && i < |p.lanes| && (p.lanes[i].worker.PushTest? || p.lanes[i].worker.Pushing?)
    ensures Enabled(p, Work(i))
    ensures var lane, full := p.lanes[i], |p.lanes[i].outbound| >= p.capacity;
            Do(p, Work(i)) ==
            if lane.worker.PushTest? then p.(lanes := p.lanes[i := lane.(worker := Pushing(lane.worker.result))])
            else if full then
              p.(clean := false,
                 lanes := p.lanes[i := lane.(worker := PushTest(ResultMsg(lane.worker.result.correlation, [], [])))])
            else
              p.(lanes := p.lanes[i := lane.(worker := LoopTest, outbound := lane.outbound + [lane.worker.result])])
  {
    hide Submit;
  }

  /** A worker that finds its result queue full sends, once the consumer has made room,
      the correlation id alone: events and trades are gone. */
  lemma {:induction false} EmptiedResultArrives(p: Pipe, i: nat)
    requires Shaped(p) && p.running && i < |p.lanes| && p.lanes[i].worker.Pushing?
    requires |p.lanes[i].outbound| == p.capacity > 0
    ensures var lane, retry := p.lanes[i], [Work(i), Work(i), Drain(i), Work(i)];
            && Runs(p, retry)
            && After(p, retry) ==
               p.(clean := false,
                  lanes := p.lanes[i := lane.(worker := LoopTest, drained := lane.drained + [lane.outbound[0]],
                                              outbound := lane.outbound[1..]
                                                          + [ResultMsg(lane.worker.result.correlation, [], [])])])
  {
    hide Submit, Runs, After, WorkOn;
    var lane, r := p.lanes[i], ResultMsg(p.lanes[i].worker.result.correlation, [], []);
    var p1 := p.(clean := false, lanes := p.lanes[i := lane.(worker := PushTest(r))]);
    var p2 := p.(clean := false, lanes := p.lanes[i := lane.(worker := Pushing(r))]);
    var drained := lane.(worker := Pushing(r), outbound := lane.outbound[1..], drained := lane.drained + [lane.outbound[0]]);
    var p3 := p.(clean := false, lanes := p.lanes[i := drained]);
    var p4 := p.(clean := false, lanes := p.lanes[i := drained.(worker := LoopTest, outbound := lane.outbound[1..] + [r])]);
    NoMore(p4);
    WorkerTurn(p3, i);
    StepBack(p3, Work(i), p4, []);
    assert Do(p2, Drain(i)) == p3;
    StepBack(p2, Drain(i), p3, [Work(i)] + []);
    WorkerTurn(p1, i);
    StepBack(p1, Work(i), p2, [Drain(i)] + ([Work(i)] + []));
    WorkerTurn(p, i);
    StepBack(p, Work(i), p1, [Work(i)] + ([Drain(i)] + ([Work(i)] + [])));
    assert [Work(i), Work(i), Drain(i), Work(i)] == [Work(i)] + ([Work(i)] + ([Drain(i)] + ([Work(i)] + [])));
  }
}
