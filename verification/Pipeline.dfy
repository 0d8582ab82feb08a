/** The multi-threaded front end (include/threaded_engine.hpp): one submitter, one
    worker per shard, one consumer, interleaved step by step.  Queues are bounded
    first-in first-out queues, which is what `Ring` proves the rings to be. */
module Pipeline {
  import opened Orders
  import opened Bits
  import opened ShardedSpec

  datatype CommandMsg = CommandMsg(message: Message, correlation: nat)

  datatype ResultMsg = ResultMsg(correlation: nat, events: seq<ExecEvent>, trades: seq<Trade>)

  function Answer(msg: CommandMsg, response: Response): ResultMsg {
    ResultMsg(msg.correlation, response.events, response.trades)
  }

  // ---------------------------------------------------------------- moved-from messages

  /** `push` takes its argument by value: when it fails, the caller is left with
      emptied strings and vectors. */
  function Emptied(command: Command): Command {
    match command
    case Add(c) => Add(c.(symbol := "", participant := ""))
    case Cancel(c) => Cancel(c.(symbol := ""))
    case Replace(c) => Replace(c.(symbol := ""))
  }

  function MovedFrom(msg: CommandMsg): CommandMsg {
    msg.(message := msg.message.(command := Emptied(msg.message.command)))
  }

  function MovedFromResult(r: ResultMsg): ResultMsg {
    r.(events := [], trades := [])
  }

  // ---------------------------------------------------------------- threads

  /** Where a worker is in its loop. */
  datatype Worker =
    | NotStarted
    | LoopTest
    | Polling
    | Executing(msg: CommandMsg)
    | PushTest(result: ResultMsg)
    | Pushing(result: ResultMsg)
    | Exited

  datatype Submitter = Idle | Offering(shard: nat, msg: CommandMsg)

  /** One shard's queues and worker.  `drained` records what the consumer received
      and `lost` what the worker dropped on the way out. */
  datatype Lane = Lane(
    inbound: seq<CommandMsg>, worker: Worker, outbound: seq<ResultMsg>,
    drained: seq<ResultMsg>, lost: seq<ResultMsg>)

  /** `submitted` records every command in submission order; `clean` says that
      every push so far found room at once. */
  datatype Pipe = Pipe(
    limits: RiskLimits, capacity: nat, shards: seq<Shard>, lanes: seq<Lane>, submitter: Submitter,
    running: bool, submitted: seq<CommandMsg>, clean: bool)

  datatype Action =
    | Start
    | Stop
    | Submission(message: Message)
    | Offer
    | Work(shard: nat)
    | Drain(shard: nat)

  const IDLE_LANE := Lane([], NotStarted, [], [], [])

  function Initial(limits: RiskLimits, capacity: nat, n: nat): Pipe {
    Pipe(limits, capacity, ShardedSpec.Start(n), seq(n, _ => IDLE_LANE), Idle, false, [], true)
  }

  function Target(msg: CommandMsg, n: nat): (s: nat)
    requires n > 0
    ensures s < n
  {
    ShardOf(SymbolOf(msg.message.command), n)
  }

  predicate Shaped(p: Pipe) {
    0 < |p.lanes| == |p.shards| && (p.submitter.Offering? ==> p.submitter.shard < |p.lanes|)
  }

  predicate Enabled(p: Pipe, a: Action) {
    && Shaped(p)
    && match a
       case Start => forall i :: 0 <= i < |p.lanes| ==> p.lanes[i].worker.NotStarted?
       case Stop => p.running
       case Submission(_) => p.submitter.Idle?
       case Offer => p.submitter.Offering?
       case Work(i) => i < |p.lanes| && !p.lanes[i].worker.NotStarted? && !p.lanes[i].worker.Exited?
       case Drain(i) => i < |p.lanes| && p.lanes[i].outbound != []
  }

  /** The worker of a lane takes its next step, other than executing a command. */
  function WorkOn(lane: Lane, running: bool, capacity: nat): Lane
    requires !lane.worker.Executing?
  {
    match lane.worker
    case LoopTest => lane.(worker := if running then Polling else Exited)
    case Polling =>
      if lane.inbound == [] then lane.(worker := LoopTest)
      else lane.(worker := Executing(lane.inbound[0]), inbound := lane.inbound[1..])
    case PushTest(r) =>
      if running then lane.(worker := Pushing(r)) else lane.(worker := LoopTest, lost := lane.lost + [r])
    case Pushing(r) =>
      if |lane.outbound| < capacity then lane.(worker := LoopTest, outbound := lane.outbound + [r])
      else lane.(worker := PushTest(MovedFromResult(r)))
    case NotStarted => lane
    case Exited => lane
  }

  predicate PushFails(lane: Lane, capacity: nat) {
    lane.worker.Pushing? && |lane.outbound| >= capacity
  }

  function Do(p: Pipe, a: Action): (q: Pipe)
    requires Enabled(p, a)
    ensures |q.lanes| == |q.shards| == |p.lanes| && q.limits == p.limits
  {
    var n := |p.lanes|;
    match a
    case Start =>
      p.(running := true, lanes := seq(n, i requires 0 <= i < n => p.lanes[i].(worker := LoopTest)))
    case Stop => p.(running := false)
    case Submission(message) =>
      var msg := CommandMsg(message, Wrap(|p.submitted| + 1));
      p.(submitter := Offering(Target(msg, n), msg), submitted := p.submitted + [msg])
    case Offer =>
      var s, msg := p.submitter.shard, p.submitter.msg;
      var lane := p.lanes[s];
      if |lane.inbound| < p.capacity then
        p.(submitter := Idle, lanes := p.lanes[s := lane.(inbound := lane.inbound + [msg])])
      else p.(submitter := Offering(s, MovedFrom(msg)), clean := false)
    case Work(i) =>
      var lane := p.lanes[i];
      if lane.worker.Executing? then
        var msg := lane.worker.msg;
        var (shards1, response) := Submit(p.limits, p.shards, msg.message);
        p.(shards := shards1, lanes := p.lanes[i := lane.(worker := PushTest(Answer(msg, response)))])
      else
        p.(lanes := p.lanes[i := WorkOn(lane, p.running, p.capacity)], clean := p.clean && !PushFails(lane, p.capacity))
    case Drain(i) =>
      var lane := p.lanes[i];
      p.(lanes := p.lanes[i := lane.(outbound := lane.outbound[1..], drained := lane.drained + [lane.outbound[0]])])
  }

  // ---------------------------------------------------------------- what sequential execution gives

  /** The commands of a sequence that belong to shard `i`. */
  function Routed(msgs: seq<CommandMsg>, i: nat, n: nat): seq<CommandMsg>
    requires n > 0
  {
    if msgs == [] then [] else
    var last := msgs[|msgs| - 1];
    Routed(msgs[..|msgs| - 1], i, n) + if Target(last, n) == i then [last] else []
  }

  /** One shard fed a sequence of commands. */
  function Served(limits: RiskLimits, msgs: seq<CommandMsg>): (r: (Shard, seq<ResultMsg>))
    ensures |r.1| == |msgs|
  {
    if msgs == [] then (EMPTY_SHARD, []) else
    var (sh, results) := Served(limits, msgs[..|msgs| - 1]);
    var last := msgs[|msgs| - 1];
    var (sh1, response) := Handle(limits, sh, last.message);
    (sh1, results + [Answer(last, response)])
  }

  /** The sequential sharded engine fed the whole sequence. */
  function Sequential(limits: RiskLimits, n: nat, msgs: seq<CommandMsg>): (r: (seq<Shard>, seq<ResultMsg>))
    requires n > 0
    ensures |r.0| == n && |r.1| == |msgs|
  {
    if msgs == [] then (ShardedSpec.Start(n), []) else
    var (shards, results) := Sequential(limits, n, msgs[..|msgs| - 1]);
    var last := msgs[|msgs| - 1];
    var (shards1, response) := Submit(limits, shards, last.message);
    (shards1, results + [Answer(last, response)])
  }

  /** The results that answer commands of shard `i`. */
  function Picked(msgs: seq<CommandMsg>, results: seq<ResultMsg>, i: nat, n: nat): seq<ResultMsg>
    requires n > 0 && |results| == |msgs|
    decreases |msgs|
  {
    if msgs == [] then [] else
    var k := |msgs| - 1;
    Picked(msgs[..k], results[..k], i, n) + if Target(msgs[k], n) == i then [results[k]] else []
  }

  /** What the sequential engine answers on shard `i`, in order. */
  function Expected(limits: RiskLimits, n: nat, msgs: seq<CommandMsg>, i: nat): seq<ResultMsg>
    requires n > 0
  {
    Picked(msgs, Sequential(limits, n, msgs).1, i, n)
  }

  /** Each shard of the sequential engine depends on its own commands only. */
  lemma {:induction false} SequentialSplits(limits: RiskLimits, n: nat, msgs: seq<CommandMsg>, i: nat)
    requires i < n
    ensures Served(limits, Routed(msgs, i, n)) == (Sequential(limits, n, msgs).0[i], Expected(limits, n, msgs, i))
    decreases |msgs|
  {
    hide Handle, ShardOf;
    if msgs != [] {
      var k := |msgs| - 1;
      var init, last := msgs[..k], msgs[k];
      SequentialSplits(limits, n, init, i);
      var results := Sequential(limits, n, msgs).1;
      assert results[..k] == Sequential(limits, n, init).1;
      if Target(last, n) == i {
        var own := Routed(msgs, i, n);
        assert own[..|own| - 1] == Routed(init, i, n);
      } else {
        assert Routed(msgs, i, n) == Routed(init, i, n);
        assert Expected(limits, n, msgs, i) == Expected(limits, n, init, i);
      }
    }
  }

  lemma {:induction false} ServedPrefix(limits: RiskLimits, msgs: seq<CommandMsg>, k: nat)
    requires k <= |msgs|
    ensures Served(limits, msgs[..k]).1 == Served(limits, msgs).1[..k]
    decreases |msgs|
  {
    hide Handle;
    if k < |msgs| {
      var init := msgs[..|msgs| - 1];
      ServedPrefix(limits, init, k);
      assert init[..k] == msgs[..k];
    } else {
      assert msgs[..k] == msgs;
    }
  }

  lemma {:induction false} ServedOneMore(limits: RiskLimits, msgs: seq<CommandMsg>, msg: CommandMsg)
    ensures var (sh, results) := Served(limits, msgs);
            var (sh1, response) := Handle(limits, sh, msg.message);
            Served(limits, msgs + [msg]) == (sh1, results + [Answer(msg, response)])
  {
    hide Handle;
    assert (msgs + [msg])[..|msgs|] == msgs;
  }

  // ---------------------------------------------------------------- the invariant of one lane

  function InHand(w: Worker): seq<ResultMsg> {
    match w
    case PushTest(r) => [r]
    case Pushing(r) => [r]
    case _ => []
  }

  function Held(w: Worker): seq<CommandMsg> {
    match w
    case Executing(msg) => [msg]
    case _ => []
  }

  /** Results of executed commands, wherever they are now, oldest first. */
  function Results(lane: Lane): seq<ResultMsg> {
    lane.drained + lane.outbound + InHand(lane.worker) + lane.lost
  }

  function PendingFor(submitter: Submitter, i: nat): seq<CommandMsg> {
    if submitter.Offering? && submitter.shard == i then [submitter.msg] else []
  }

  /** Commands not executed yet, oldest first. */
  function Waiting(lane: Lane, pending: seq<CommandMsg>): seq<CommandMsg> {
    Held(lane.worker) + lane.inbound + pending
  }

  /** `todo` is what was submitted for this lane: a first part is executed, with the
      results and the shard that sequential execution gives, and the rest waits. */
  ghost predicate LaneOk(limits: RiskLimits, sh: Shard, lane: Lane, todo: seq<CommandMsg>, pending: seq<CommandMsg>) {
    var k := |Results(lane)|;
    && k <= |todo| && todo[k..] == Waiting(lane, pending)
    && Served(limits, todo[..k]) == (sh, Results(lane))
  }

  /** A result is lost only by a worker on its way out, and only one. */
  predicate LossOk(running: bool, lane: Lane) {
    |lane.lost| <= 1 && (lane.lost != [] ==> !running && (lane.worker.LoopTest? || lane.worker.Exited?))
  }

  ghost predicate LaneInv(limits: RiskLimits, running: bool, sh: Shard, lane: Lane, todo: seq<CommandMsg>,
                          pending: seq<CommandMsg>)
  {
    && LaneOk(limits, sh, lane, todo, pending) && LossOk(running, lane)
    && (lane.worker.NotStarted? ==> !running && lane.lost == [])
  }

  ghost predicate Inv(p: Pipe) {
    && Shaped(p)
    && (p.submitter.Offering? ==> p.submitter.shard == Target(p.submitter.msg, |p.lanes|))
    && (forall i :: 0 <= i < |p.lanes| ==>
          LaneInv(p.limits, p.running, p.shards[i], p.lanes[i], Routed(p.submitted, i, |p.lanes|), PendingFor(p.submitter, i)))
  }

  // ---------------------------------------------------------------- steps of one lane

  lemma {:induction false} LaneWorks(limits: RiskLimits, sh: Shard, lane: Lane, running: bool, capacity: nat,
                                   todo: seq<CommandMsg>, pending: seq<CommandMsg>)
    requires LaneOk(limits, sh, lane, todo, pending) && LossOk(running, lane)
    requires !lane.worker.Executing? && !lane.worker.NotStarted? && !lane.worker.Exited? && !PushFails(lane, capacity)
    ensures LaneOk(limits, sh, WorkOn(lane, running, capacity), todo, pending)
    ensures LossOk(running, WorkOn(lane, running, capacity))
  {
    hide Served;
    var lane1 := WorkOn(lane, running, capacity);
    assert Results(lane1) == Results(lane);
    assert Waiting(lane1, pending) == Waiting(lane, pending);
  }

  lemma {:induction false} LaneExecutes(limits: RiskLimits, sh: Shard, lane: Lane, todo: seq<CommandMsg>,
                                      pending: seq<CommandMsg>)
    requires LaneOk(limits, sh, lane, todo, pending) && lane.worker.Executing? && lane.lost == []
    ensures var msg := lane.worker.msg;
            var (sh1, response) := Handle(limits, sh, msg.message);
            LaneOk(limits, sh1, lane.(worker := PushTest(Answer(msg, response))), todo, pending)
  {
    hide Served, Handle;
    var msg := lane.worker.msg;
    var (sh1, response) := Handle(limits, sh, msg.message);
    var lane1 := lane.(worker := PushTest(Answer(msg, response)));
    var k := |Results(lane)|;
    assert Results(lane1) == Results(lane) + [Answer(msg, response)];
    assert todo[k] == todo[k..][0] == msg;
    assert todo[..k + 1] == todo[..k] + [msg];
    ServedOneMore(limits, todo[..k], msg);
    assert todo[k + 1..] == todo[k..][1..];
    assert Waiting(lane1, pending) == Waiting(lane, pending)[1..];
  }

  lemma {:induction false} LaneDrains(limits: RiskLimits, sh: Shard, lane: Lane, todo: seq<CommandMsg>, pending: seq<CommandMsg>)
    requires LaneOk(limits, sh, lane, todo, pending) && lane.outbound != []
    ensures LaneOk(limits, sh, lane.(outbound := lane.outbound[1..], drained := lane.drained + [lane.outbound[0]]), todo, pending)
  {
    hide Served;
    assert Results(lane.(outbound := lane.outbound[1..], drained := lane.drained + [lane.outbound[0]])) == Results(lane);
  }

  lemma {:induction false} LaneReceives(limits: RiskLimits, sh: Shard, lane: Lane, todo: seq<CommandMsg>, msg: CommandMsg)
    requires LaneOk(limits, sh, lane, todo, [msg])
    ensures LaneOk(limits, sh, lane.(inbound := lane.inbound + [msg]), todo, [])
  {
    hide Served;
    assert Waiting(lane.(inbound := lane.inbound + [msg]), []) == Waiting(lane, [msg]);
  }

  lemma {:induction false} LaneAwaits(limits: RiskLimits, sh: Shard, lane: Lane, todo: seq<CommandMsg>, msg: CommandMsg)
    requires LaneOk(limits, sh, lane, todo, [])
    ensures LaneOk(limits, sh, lane, todo + [msg], [msg])
  {
    hide Served;
    var k := |Results(lane)|;
    assert (todo + [msg])[..k] == todo[..k];
    assert (todo + [msg])[k..] == todo[k..] + [msg];
    assert Waiting(lane, [msg]) == Waiting(lane, []) + [msg];
  }


  // ---------------------------------------------------------------- steps of the whole pipeline

  lemma {:induction false} RoutedTarget(msgs: seq<CommandMsg>, i: nat, n: nat)
    requires n > 0
    ensures forall k :: 0 <= k < |Routed(msgs, i, n)| ==> Target(Routed(msgs, i, n)[k], n) == i
    decreases |msgs|
  {
    hide Target;
    if msgs != [] {
      RoutedTarget(msgs[..|msgs| - 1], i, n);
    }
  }

  lemma {:induction false} RoutedOneMore(msgs: seq<CommandMsg>, msg: CommandMsg, i: nat, n: nat)
    requires n > 0
    ensures Routed(msgs + [msg], i, n) == Routed(msgs, i, n) + if Target(msg, n) == i then [msg] else []
  {
    hide Target;
    assert (msgs + [msg])[..|msgs|] == msgs;
  }

  lemma {:induction false} StartInv(p: Pipe)
    requires Inv(p) && Enabled(p, Start)
    ensures Inv(Do(p, Start))
  {
    hide Routed, Served, Target;
    var q := Do(p, Start);
    forall i | 0 <= i < |q.lanes|
      ensures LaneInv(q.limits, q.running, q.shards[i], q.lanes[i], Routed(q.submitted, i, |q.lanes|), PendingFor(q.submitter, i))
    {
      assert Results(q.lanes[i]) == Results(p.lanes[i]);
      assert Waiting(q.lanes[i], PendingFor(p.submitter, i)) == Waiting(p.lanes[i], PendingFor(p.submitter, i));
    }
  }

  lemma {:induction false} SubmissionInv(p: Pipe, message: Message)
    requires Inv(p) && Enabled(p, Submission(message))
    ensures Inv(Do(p, Submission(message)))
  {
    hide Routed, LaneOk, Target, LossOk;
    var q, n := Do(p, Submission(message)), |p.lanes|;
    var msg := q.submitter.msg;
    forall i | 0 <= i < n
      ensures LaneInv(q.limits, q.running, q.shards[i], q.lanes[i], Routed(q.submitted, i, n), PendingFor(q.submitter, i))
    {
      RoutedOneMore(p.submitted, msg, i, n);
      if Target(msg, n) == i {
        LaneAwaits(p.limits, p.shards[i], p.lanes[i], Routed(p.submitted, i, n), msg);
      } else {
        assert Routed(q.submitted, i, n) == Routed(p.submitted, i, n);
      }
    }
  }

  lemma {:induction false} OfferInv(p: Pipe)
    requires Inv(p) && Enabled(p, Offer) && Do(p, Offer).clean
    ensures Inv(Do(p, Offer))
  {
    hide Routed, LaneOk, Target;
    var s := p.submitter.shard;
    LaneReceives(p.limits, p.shards[s], p.lanes[s], Routed(p.submitted, s, |p.lanes|), p.submitter.msg);
  }

  lemma {:induction false} DrainInv(p: Pipe, i: nat)
    requires Inv(p) && Enabled(p, Drain(i))
    ensures Inv(Do(p, Drain(i)))
  {
    hide Routed, LaneOk, Target;
    LaneDrains(p.limits, p.shards[i], p.lanes[i], Routed(p.submitted, i, |p.lanes|), PendingFor(p.submitter, i));
  }

  lemma {:induction false} ExecuteInv(p: Pipe, i: nat)
    requires Inv(p) && Enabled(p, Work(i)) && p.lanes[i].worker.Executing?
    ensures Inv(Do(p, Work(i)))
  {
    hide Routed, Served, Handle, ShardOf;
    var n, lane, pending := |p.lanes|, p.lanes[i], PendingFor(p.submitter, i);
    var todo := Routed(p.submitted, i, n);
    var k := |Results(lane)|;
    assert todo[k] == todo[k..][0] == lane.worker.msg;
    RoutedTarget(p.submitted, i, n);
    LaneExecutes(p.limits, p.shards[i], lane, todo, pending);
  }

  lemma {:induction false} WorkInv(p: Pipe, i: nat)
    requires Inv(p) && Enabled(p, Work(i)) && Do(p, Work(i)).clean
    ensures Inv(Do(p, Work(i)))
  {
    hide Routed, LaneOk, Target, Handle, ShardOf;
    if p.lanes[i].worker.Executing? {
      ExecuteInv(p, i);
    } else {
      LaneWorks(p.limits, p.shards[i], p.lanes[i], p.running, p.capacity, Routed(p.submitted, i, |p.lanes|), PendingFor(p.submitter, i));
    }
  }

  /** Every step that does not fail a push keeps the invariant. */
  lemma {:induction false} StepInv(p: Pipe, a: Action)
    requires Inv(p) && Enabled(p, a) && Do(p, a).clean
    ensures Inv(Do(p, a))
  {
    match a
    case Start => StartInv(p);
    case Stop => hide Routed, LaneOk, Target;
    case Submission(message) => SubmissionInv(p, message);
    case Offer => OfferInv(p);
    case Work(i) => WorkInv(p, i);
    case Drain(i) => DrainInv(p, i);
  }

  // ---------------------------------------------------------------- runs

  predicate Runs(p: Pipe, actions: seq<Action>)
    decreases |actions|
  {
    actions == [] || (Enabled(p, actions[0]) && Runs(Do(p, actions[0]), actions[1..]))
  }

  function After(p: Pipe, actions: seq<Action>): Pipe
    requires Runs(p, actions)
    decreases |actions|
  {
    if actions == [] then p else After(Do(p, actions[0]), actions[1..])
  }

  lemma {:induction false} CleanBefore(p: Pipe, actions: seq<Action>)
    requires Runs(p, actions) && After(p, actions).clean
    ensures p.clean
    decreases |actions|
  {
    hide Submit;
    if actions != [] {
      CleanBefore(Do(p, actions[0]), actions[1..]);
    }
  }

  lemma {:induction false} RunInv(p: Pipe, actions: seq<Action>)
    requires Inv(p) && Runs(p, actions) && After(p, actions).clean
    ensures Inv(After(p, actions)) && After(p, actions).limits == p.limits && |After(p, actions).lanes| == |p.lanes|
    decreases |actions|
  {
    hide Inv, Do, Enabled;
    if actions != [] {
      CleanBefore(Do(p, actions[0]), actions[1..]);
      StepInv(p, actions[0]);
      RunInv(Do(p, actions[0]), actions[1..]);
    }
  }

  ghost predicate Numbered(msgs: seq<CommandMsg>) {
    forall k :: 0 <= k < |msgs| ==> msgs[k].correlation == (k + 1) % 0x1_0000_0000_0000_0000
  }

  /** The `k`-th submission carries correlation id `k`, on 64 bits, in every run. */
  lemma {:induction false} CorrelationIds(p: Pipe, actions: seq<Action>)
    requires Runs(p, actions) && Numbered(p.submitted)
    ensures Numbered(After(p, actions).submitted)
    decreases |actions|
  {
    hide Submit, Target;
    if actions != [] {
      CorrelationIds(Do(p, actions[0]), actions[1..]);
    }
  }

  lemma {:induction false} InitialInv(limits: RiskLimits, capacity: nat, n: nat)
    requires n > 0
    ensures Inv(Initial(limits, capacity, n))
  {
  }

  /** Every interleaving of submitter, workers and consumer in which no push fails:
      what shard `i` has handed over is the beginning of what the sequential engine
      answers on that shard, with the same correlation ids, events and trades; what
      it executed but did not hand over is in its queue or in its worker's hand,
      except at most one result dropped after a stop; and once nothing waits, all
      of it is accounted for. */
  lemma {:induction false} PipelineRefines(limits: RiskLimits, capacity: nat, n: nat, actions: seq<Action>, i: nat)
    requires i < n && Runs(Initial(limits, capacity, n), actions)
    requires After(Initial(limits, capacity, n), actions).clean
    ensures var p := After(Initial(limits, capacity, n), actions);
            var all := Expected(limits, n, p.submitted, i);
            && |p.lanes| == n
            && var lane := p.lanes[i];
               && lane.drained <= lane.drained + lane.outbound + InHand(lane.worker) + lane.lost <= all
               && |lane.lost| <= 1 && (lane.lost != [] ==> !p.running)
               && (Waiting(lane, PendingFor(p.submitter, i)) == [] ==>
                     lane.drained + lane.outbound + InHand(lane.worker) + lane.lost == all)
  {
    hide Inv, Runs, After, Expected, Routed, Served, Waiting;
    InitialInv(limits, capacity, n);
    RunInv(Initial(limits, capacity, n), actions);
    LaneResult(After(Initial(limits, capacity, n), actions), i);
  }

  lemma {:induction false} LaneResult(p: Pipe, i: nat)
    requires Inv(p) && i < |p.lanes|
    ensures var all, lane := Expected(p.limits, |p.lanes|, p.submitted, i), p.lanes[i];
            && Results(lane) <= all && LossOk(p.running, lane)
            && (Waiting(lane, PendingFor(p.submitter, i)) == [] ==> Results(lane) == all)
  {
    hide Expected, Routed, Served, Waiting, Results, Target;
    var n, lane := |p.lanes|, p.lanes[i];
    var todo := Routed(p.submitted, i, n);
    assert LaneInv(p.limits, p.running, p.shards[i], lane, todo, PendingFor(p.submitter, i));
    var k := |Results(lane)|;
    SequentialSplits(p.limits, n, p.submitted, i);
    ServedPrefix(p.limits, todo, k);
    if Waiting(lane, PendingFor(p.submitter, i)) == [] {
      assert todo[..k] == todo;
    }
  }

  // ---------------------------------------------------------------- workers keep to their shards

  /** A worker is only ever given commands of its own shard, and executing one changes
      no other shard. */
  lemma {:induction false} OwnShard(p: Pipe, i: nat)
    requires Inv(p) && i < |p.lanes| && p.lanes[i].worker.Executing?
    ensures Target(p.lanes[i].worker.msg, |p.lanes|) == i
    ensures Enabled(p, Work(i)) && forall j :: 0 <= j < |p.lanes| && j != i ==> Do(p, Work(i)).shards[j] == p.shards[j]
  {
    hide Routed, Served, Handle, ShardOf;
    var n, lane := |p.lanes|, p.lanes[i];
    var todo := Routed(p.submitted, i, n);
    var k := |Results(lane)|;
    assert LaneInv(p.limits, p.running, p.shards[i], lane, todo, PendingFor(p.submitter, i));
    assert todo[k] == todo[k..][0] == lane.worker.msg;
    RoutedTarget(p.submitted, i, n);
  }

  /** In every run without a failed push. */
  lemma {:induction false} WorkersKeepToTheirShards(limits: RiskLimits, capacity: nat, n: nat, actions: seq<Action>, i: nat)
    requires i < n && Runs(Initial(limits, capacity, n), actions)
    requires After(Initial(limits, capacity, n), actions).clean
    ensures var p := After(Initial(limits, capacity, n), actions);
            && |p.lanes| == n
            && (p.lanes[i].worker.Executing? ==>
                  && Target(p.lanes[i].worker.msg, n) == i && Enabled(p, Work(i))
                  && forall j :: 0 <= j < n && j != i ==> Do(p, Work(i)).shards[j] == p.shards[j])
  {
    hide Inv, Runs, After, Target, Enabled, Do;
    InitialInv(limits, capacity, n);
    RunInv(Initial(limits, capacity, n), actions);
    var p := After(Initial(limits, capacity, n), actions);
    if p.lanes[i].worker.Executing? {
      OwnShard(p, i);
    }
  }

  // ---------------------------------------------------------------- when no push can fail

  /** Submitted to shard `i` and not yet handed over. */
  function Outstanding(p: Pipe, i: nat): int
    requires i < |p.lanes|
  {
    |Routed(p.submitted, i, |p.lanes|)| - |p.lanes[i].drained|
  }

  ghost predicate Bounded(p: Pipe) {
    forall i :: 0 <= i < |p.lanes| ==> Outstanding(p, i) <= p.capacity
  }

  /** What the submitter can check before it submits: fewer outstanding commands on
      that shard than the queues have slots. */
  predicate HasRoom(p: Pipe, message: Message)
    requires p.lanes != []
  {
    Outstanding(p, ShardOf(SymbolOf(message.command), |p.lanes|)) < p.capacity
  }

  predicate Paced(p: Pipe, actions: seq<Action>)
    requires Runs(p, actions)
    decreases |actions|
  {
    actions == []
    || ((actions[0].Submission? ==> HasRoom(p, actions[0].message)) && Paced(Do(p, actions[0]), actions[1..]))
  }

  /** Everything outstanding on a lane is somewhere in it. */
  lemma {:induction false} LaneCount(limits: RiskLimits, sh: Shard, lane: Lane, todo: seq<CommandMsg>, pending: seq<CommandMsg>)
    requires LaneOk(limits, sh, lane, todo, pending)
    ensures |todo| - |lane.drained| ==
            |lane.outbound| + |InHand(lane.worker)| + |lane.lost| + |Held(lane.worker)| + |lane.inbound| + |pending|
  {
    hide Served, InHand, Held;
    var k := |Results(lane)|;
    assert |todo| == k + |todo[k..]|;
  }

  lemma {:induction false} PacedStep(p: Pipe, a: Action)
    requires Inv(p) && p.clean && Bounded(p) && Enabled(p, a) && (a.Submission? ==> HasRoom(p, a.message))
    ensures Do(p, a).clean
  {
    hide Routed, LaneOk, ShardOf, Submit;
    match a
    case Offer =>
      var s := p.submitter.shard;
      LaneCount(p.limits, p.shards[s], p.lanes[s], Routed(p.submitted, s, |p.lanes|), PendingFor(p.submitter, s));
      assert Outstanding(p, s) <= p.capacity;
    case Work(i) =>
      LaneCount(p.limits, p.shards[i], p.lanes[i], Routed(p.submitted, i, |p.lanes|), PendingFor(p.submitter, i));
      assert Outstanding(p, i) <= p.capacity;
    case _ =>
  }

  /** Nothing but a submission adds to what is outstanding. */
  lemma {:induction false} OutstandingStep(p: Pipe, a: Action, i: nat)
    requires Shaped(p) && Enabled(p, a) && i < |p.lanes|
    ensures Do(p, a).capacity == p.capacity
    ensures Outstanding(Do(p, a), i) <= Outstanding(p, i) +
            if a.Submission? && ShardOf(SymbolOf(a.message.command), |p.lanes|) == i then 1 else 0
  {
    hide Routed, ShardOf, Submit;
    if a.Submission? {
      RoutedOneMore(p.submitted, CommandMsg(a.message, Wrap(|p.submitted| + 1)), i, |p.lanes|);
    }
  }

  lemma {:induction false} BoundedStep(p: Pipe, a: Action)
    requires Shaped(p) && Bounded(p) && Enabled(p, a) && (a.Submission? ==> HasRoom(p, a.message))
    ensures Bounded(Do(p, a))
  {
    hide Outstanding, Do, Enabled, ShardOf;
    forall i | 0 <= i < |p.lanes|
      ensures Outstanding(Do(p, a), i) <= Do(p, a).capacity
    {
      OutstandingStep(p, a, i);
      assert Outstanding(p, i) <= p.capacity;
    }
  }

  lemma {:induction false} PacedRun(p: Pipe, actions: seq<Action>)
    requires Inv(p) && p.clean && Bounded(p) && Runs(p, actions) && Paced(p, actions)
    ensures After(p, actions).clean
    decreases |actions|
  {
    hide Do, HasRoom, Bounded;
    if actions != [] {
      PacedStep(p, actions[0]);
      BoundedStep(p, actions[0]);
      StepInv(p, actions[0]);
      PacedRun(Do(p, actions[0]), actions[1..]);
    }
  }

  /** A submitter that never has more commands outstanding on a shard than a queue has
      slots never fails a push, and neither does any worker. */
  lemma {:induction false} PacedIsClean(limits: RiskLimits, capacity: nat, n: nat, actions: seq<Action>)
    requires n > 0 && Runs(Initial(limits, capacity, n), actions) && Paced(Initial(limits, capacity, n), actions)
    ensures After(Initial(limits, capacity, n), actions).clean
  {
    hide Inv, Runs, After, Paced;
    InitialInv(limits, capacity, n);
    NothingOutstanding(limits, capacity, n);
    PacedRun(Initial(limits, capacity, n), actions);
  }

  lemma {:induction false} NothingOutstanding(limits: RiskLimits, capacity: nat, n: nat)
    requires n > 0
    ensures Bounded(Initial(limits, capacity, n))
  {
    hide Target;
  }
}
