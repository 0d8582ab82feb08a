/** The pipeline with its queues as they are: every load, slot access and store of
    every ring is a step of its own, interleaved arbitrarily with everything else.
    It refines the pipeline over bounded queues. */
module RingPipeline {
  import opened Bits
  import opened ShardedSpec
  import opened Pipeline
  import opened PipelineExact
  import opened FailedPush
  import Ring

  // ---------------------------------------------------------------- one push, one pop, access by access

  datatype PushStatus = Pushing | Refused | Pushed
  datatype PopStatus = Popping | Nothing | Popped

  function PushAccess<T>(s: Ring.State<T>, value: T): Ring.Access<T> {
    match s.producer
    case Resting => Ring.ReadHead(value)
    case HeadRead(_, _) => Ring.CheckRoom
    case RoomSeen(_, _) => Ring.Store
    case Stored(_, _) => Ring.PublishHead
  }

  function PopAccess<T>(s: Ring.State<T>, left: T): Ring.Access<T> {
    match s.consumer
    case Waiting => Ring.ReadTail
    case TailRead(_) => Ring.CheckData
    case DataSeen(_) => Ring.Take(left)
    case Taken(_) => Ring.PublishTail
  }

  /** How far the access brings a `push`, judged by where the producer ends up. */
  function AfterPush<T>(s: Ring.State<T>, value: T): (r: (Ring.State<T>, PushStatus))
    requires Ring.Indexable(s)
  {
    var s1 := Ring.Do(s, PushAccess(s, value));
    (s1, if !s1.producer.Resting? then PushStatus.Pushing else if s.producer.Stored? then Pushed else PushStatus.Refused)
  }

  function AfterPop<T>(s: Ring.State<T>, left: T): (r: (Ring.State<T>, PopStatus))
    requires Ring.Indexable(s)
  {
    var s1 := Ring.Do(s, PopAccess(s, left));
    (s1, if !s1.consumer.Waiting? then Popping else if s.consumer.Taken? then Popped else Nothing)
  }

  /** What the consumer has been given and the ring has released. */
  function Given<T>(s: Ring.State<T>): seq<T>
    requires 0 <= s.Released() <= |s.popped|
  {
    s.popped[..s.Released()]
  }

  /** The producer, if inside `push`, is pushing `value`. */
  ghost predicate Carries<T>(s: Ring.State<T>, value: T) {
    s.producer.Resting? || s.producer.value == value
  }

  lemma {:induction false} PushStep<T>(s: Ring.State<T>, value: T)
    requires Ring.Inv(s) && Carries(s, value)
    ensures var (s1, status) := AfterPush(s, value);
            && Ring.Inv(s1) && s1.capacity == s.capacity && s1.consumer == s.consumer && Given(s1) == Given(s)
            && Carries(s1, value) && (status.Pushing? <==> !s1.producer.Resting?)
            && match status
               case Pushing => Ring.Queue(s1) == Ring.Queue(s)
               case Refused => Ring.Queue(s1) == Ring.Queue(s) && |Ring.Queue(s)| == s.capacity
               case Pushed => |Ring.Queue(s)| < s.capacity && Ring.Queue(s1) == Ring.Queue(s) + [value]
  {
    hide Ring.PowerOfTwo, Ring.Holding, Ring.SeesFull, Ring.Slot, Wrap;
    Ring.StepRefines(s, PushAccess(s, value));
  }

  lemma {:induction false} PopStep<T>(s: Ring.State<T>, left: T)
    requires Ring.Inv(s)
    ensures var (s1, status) := AfterPop(s, left);
            && Ring.Inv(s1) && s1.capacity == s.capacity && s1.producer == s.producer
            && (status.Popping? <==> !s1.consumer.Waiting?)
            && match status
               case Popping => Ring.Queue(s1) == Ring.Queue(s) && Given(s1) == Given(s)
               case Nothing => Ring.Queue(s1) == Ring.Queue(s) == [] && Given(s1) == Given(s)
               case Popped =>
                 && Ring.Queue(s) != [] && s.popped != [] && s.popped[|s.popped| - 1] == Ring.Queue(s)[0]
                 && Ring.Queue(s1) == Ring.Queue(s)[1..] && Given(s1) == Given(s) + [Ring.Queue(s)[0]] && s1.popped == s.popped
  {
    hide Ring.PowerOfTwo, Ring.Holding, Ring.SeesFull, Ring.Slot, Wrap;
    Ring.StepRefines(s, PopAccess(s, left));
  }

  // ---------------------------------------------------------------- the machine

  /** As `Pipe`, with a ring where that has a queue; `Polling` and `Pushing` now mean
      somewhere inside `pop` or `push`. */
  datatype RingPipe = RingPipe(
    limits: RiskLimits, shards: seq<Shard>, inbound: seq<Ring.State<CommandMsg>>, outbound: seq<Ring.State<ResultMsg>>,
    workers: seq<Worker>, lost: seq<seq<ResultMsg>>, submitter: Submitter,
    running: bool, submitted: seq<CommandMsg>, clean: bool)

  /** One step of one thread; `left` is what moving a value out of a slot leaves there. */
  datatype Move =
    | Launch
    | Halt
    | Submitting(message: Message)
    | OfferAccess
    | WorkAccess(shard: nat, left: CommandMsg)
    | DrainAccess(shard: nat, leftover: ResultMsg)

  ghost predicate Rings<T(!new)>(rings: seq<Ring.State<T>>, capacity: nat) {
    forall i :: 0 <= i < |rings| ==> Ring.Inv(rings[i]) && rings[i].capacity == capacity
  }

  ghost predicate Sized(p: RingPipe, capacity: nat) {
    && 0 < |p.shards| == |p.inbound| == |p.outbound| == |p.workers| == |p.lost|
    && Rings(p.inbound, capacity) && Rings(p.outbound, capacity)
    && (p.submitter.Offering? ==> p.submitter.shard < |p.shards|)
  }

  /** Who is inside which ring, and with what. */
  ghost predicate Engaged(p: RingPipe, i: nat)
    requires i < |p.inbound| && i < |p.outbound| && i < |p.workers|
  {
    && (!p.inbound[i].producer.Resting? ==>
          p.submitter.Offering? && p.submitter.shard == i && Carries(p.inbound[i], p.submitter.msg))
    && (!p.inbound[i].consumer.Waiting? ==> p.workers[i].Polling?)
    && (!p.outbound[i].producer.Resting? ==> p.workers[i].Pushing? && Carries(p.outbound[i], p.workers[i].result))
  }

  ghost predicate RingInv(p: RingPipe, capacity: nat) {
    Sized(p, capacity) && forall i :: 0 <= i < |p.shards| ==> Engaged(p, i)
  }

  /** The invariant is asked only so that slot indexes are defined; `MoveRefines` shows
      that no move breaks it. */
  ghost predicate Possible(p: RingPipe, capacity: nat, m: Move) {
    && RingInv(p, capacity)
    && match m
       case Launch => forall i :: 0 <= i < |p.workers| ==> p.workers[i].NotStarted?
       case Halt => p.running
       case Submitting(_) => p.submitter.Idle?
       case OfferAccess => p.submitter.Offering?
       case WorkAccess(i, _) => i < |p.workers| && !p.workers[i].NotStarted? && !p.workers[i].Exited?
       case DrainAccess(i, _) => i < |p.outbound|
  }

  ghost function OfferMove(p: RingPipe): RingPipe
    requires p.submitter.Offering? && p.submitter.shard < |p.inbound| && Ring.Indexable(p.inbound[p.submitter.shard])
  {
    var s, msg := p.submitter.shard, p.submitter.msg;
    var (ring, status) := AfterPush(p.inbound[s], msg);
    var p1 := p.(inbound := p.inbound[s := ring]);
    match status
    case Pushing => p1
    case Refused => p1.(submitter := Offering(s, MovedFrom(msg)), clean := false)
    case Pushed => p1.(submitter := Idle)
  }

  ghost function DrainMove(p: RingPipe, i: nat, left: ResultMsg): RingPipe
    requires i < |p.outbound| && Ring.Indexable(p.outbound[i])
  {
    p.(outbound := p.outbound[i := AfterPop(p.outbound[i], left).0])
  }

  ghost function WorkMove(p: RingPipe, i: nat, left: CommandMsg): RingPipe
    requires i < |p.workers| == |p.inbound| == |p.outbound| == |p.lost| == |p.shards|
    requires Ring.Indexable(p.inbound[i]) && Ring.Indexable(p.outbound[i])
  {
    match p.workers[i]
    case LoopTest => p.(workers := p.workers[i := if p.running then Polling else Exited])
    case Polling =>
      var (ring, status) := AfterPop(p.inbound[i], left);
      var p1 := p.(inbound := p.inbound[i := ring]);
      if status.Popping? then p1
      else if status.Nothing? || ring.popped == [] then p1.(workers := p.workers[i := LoopTest])
      else p1.(workers := p.workers[i := Executing(ring.popped[|ring.popped| - 1])])
    case Executing(msg) =>
      var (shards1, response) := Submit(p.limits, p.shards, msg.message);
      p.(shards := shards1, workers := p.workers[i := PushTest(Answer(msg, response))])
    case PushTest(r) =>
      if p.running then p.(workers := p.workers[i := Worker.Pushing(r)])
      else p.(workers := p.workers[i := LoopTest], lost := p.lost[i := p.lost[i] + [r]])
    case Pushing(r) =>
      var (ring, status) := AfterPush(p.outbound[i], r);
      var p1 := p.(outbound := p.outbound[i := ring]);
      (match status
       case Pushing => p1
       case Refused => p1.(workers := p.workers[i := PushTest(MovedFromResult(r))], clean := false)
       case Pushed => p1.(workers := p.workers[i := LoopTest]))
    case NotStarted => p
    case Exited => p
  }

  ghost function Move1(p: RingPipe, capacity: nat, m: Move): RingPipe
    requires Possible(p, capacity, m)
  {
    match m
    case Launch => p.(running := true, workers := seq(|p.workers|, _ => LoopTest))
    case Halt => p.(running := false)
    case Submitting(message) =>
      var msg := CommandMsg(message, Wrap(|p.submitted| + 1));
      p.(submitter := Offering(Target(msg, |p.shards|), msg), submitted := p.submitted + [msg])
    case OfferAccess => OfferMove(p)
    case WorkAccess(i, left) => WorkMove(p, i, left)
    case DrainAccess(i, left) => DrainMove(p, i, left)
  }

  // ---------------------------------------------------------------- what it looks like from outside

  ghost function LaneOf(inbound: Ring.State<CommandMsg>, worker: Worker, outbound: Ring.State<ResultMsg>, lost: seq<ResultMsg>): Lane
    requires Ring.Inv(inbound) && Ring.Inv(outbound)
  {
    Lane(Ring.Queue(inbound), worker, Ring.Queue(outbound), Given(outbound), lost)
  }

  ghost function View(p: RingPipe, capacity: nat): (v: Pipe)
    requires Sized(p, capacity)
    ensures |v.lanes| == |p.shards| && v.shards == p.shards && v.submitted == p.submitted && v.submitter == p.submitter
    ensures v.clean == p.clean && v.running == p.running && v.capacity == capacity && v.limits == p.limits
    ensures forall i :: 0 <= i < |v.lanes| ==> v.lanes[i] == LaneOf(p.inbound[i], p.workers[i], p.outbound[i], p.lost[i])
  {
    Pipe(p.limits, capacity, p.shards,
         seq(|p.shards|, i requires 0 <= i < |p.shards| => LaneOf(p.inbound[i], p.workers[i], p.outbound[i], p.lost[i])),
         p.submitter, p.running, p.submitted, p.clean)
  }

  /** `q` is `v`, or `v` after the one action `a`. */
  ghost predicate Simulates(v: Pipe, a: Action, q: Pipe) {
    q == v || (Enabled(v, a) && q == Do(v, a))
  }

  // ---------------------------------------------------------------- step by step

  lemma {:induction false} OneRing<T(!new)>(rings: seq<Ring.State<T>>, capacity: nat, i: nat, ring: Ring.State<T>)
    requires Rings(rings, capacity) && i < |rings| && Ring.Inv(ring) && ring.capacity == capacity
    ensures Rings(rings[i := ring], capacity)
  {
    hide Ring.Inv;
  }

  lemma {:induction false} RingsUsable<T(!new)>(rings: seq<Ring.State<T>>, capacity: nat)
    requires Rings(rings, capacity)
    ensures forall i :: 0 <= i < |rings| ==> Ring.Indexable(rings[i])
  {
    forall i | 0 <= i < |rings|
      ensures Ring.Indexable(rings[i])
    {
      assert Ring.Inv(rings[i]);
    }
  }

  /** A producer at rest may start with anything. */
  lemma {:induction false} NewPush<T>(s: Ring.State<T>, value: T)
    requires !s.producer.Resting? ==> Carries(s, value)
    ensures Carries(s, value)
  {
  }

  /** Two views that agree lane by lane. */
  lemma {:induction false} SameView(v: Pipe, w: Pipe)
    requires |v.lanes| == |w.lanes| && forall i :: 0 <= i < |v.lanes| ==> v.lanes[i] == w.lanes[i]
    requires w == v.(lanes := w.lanes)
    ensures w == v
  {
    assert w.lanes == v.lanes;
  }

  lemma {:induction false} OfferKeeps(p: RingPipe, capacity: nat)
    requires Possible(p, capacity, OfferAccess)
    ensures Ring.Indexable(p.inbound[p.submitter.shard]) && RingInv(OfferMove(p), capacity)
  {
    hide Ring.Inv, Ring.Queue, Given, AfterPush, Carries, Ring.Indexable;
    RingsUsable(p.inbound, capacity);
    var s, msg, q := p.submitter.shard, p.submitter.msg, OfferMove(p);
    assert Engaged(p, s);
    NewPush(p.inbound[s], msg);
    PushStep(p.inbound[s], msg);
    OneRing(p.inbound, capacity, s, q.inbound[s]);
    forall i | 0 <= i < |q.shards|
      ensures Engaged(q, i)
    {
      assert Engaged(p, i);
    }
  }

  lemma {:induction false} OfferRefines(p: RingPipe, capacity: nat)
    requires Possible(p, capacity, OfferAccess)
    ensures Ring.Indexable(p.inbound[p.submitter.shard]) && RingInv(OfferMove(p), capacity)
    ensures Simulates(View(p, capacity), Offer, View(OfferMove(p), capacity))
  {
    hide Ring.Inv, Ring.Queue, Given, AfterPush, Submit, Carries, Ring.Indexable, Ring.Do;
    OfferKeeps(p, capacity);
    var s, msg, q := p.submitter.shard, p.submitter.msg, OfferMove(p);
    assert Engaged(p, s);
    NewPush(p.inbound[s], msg);
    PushStep(p.inbound[s], msg);
    var v, w := View(p, capacity), View(q, capacity);
    if AfterPush(p.inbound[s], msg).1.Pushing? {
      SameView(v, w);
    } else {
      SameView(Do(v, Offer), w);
    }
  }

  lemma {:induction false} DrainKeeps(p: RingPipe, capacity: nat, i: nat, left: ResultMsg)
    requires Possible(p, capacity, DrainAccess(i, left))
    ensures Ring.Indexable(p.outbound[i]) && RingInv(DrainMove(p, i, left), capacity)
  {
    hide Ring.Inv, Ring.Queue, Given, AfterPop, Carries, Ring.Indexable;
    RingsUsable(p.outbound, capacity);
    var q := DrainMove(p, i, left);
    PopStep(p.outbound[i], left);
    OneRing(p.outbound, capacity, i, q.outbound[i]);
    forall j | 0 <= j < |q.shards|
      ensures Engaged(q, j)
    {
      assert Engaged(p, j);
      SameProducer(p.outbound[i], q.outbound[i]);
    }
  }

  lemma {:induction false} SameProducer<T(!new)>(s: Ring.State<T>, s1: Ring.State<T>)
    requires s1.producer == s.producer
    ensures forall value :: Carries(s, value) <==> Carries(s1, value)
  {
  }

  lemma {:induction false} DrainRefines(p: RingPipe, capacity: nat, i: nat, left: ResultMsg)
    requires Possible(p, capacity, DrainAccess(i, left))
    ensures Ring.Indexable(p.outbound[i]) && RingInv(DrainMove(p, i, left), capacity)
    ensures Simulates(View(p, capacity), Drain(i), View(DrainMove(p, i, left), capacity))
  {
    hide Ring.Inv, Ring.Queue, Given, AfterPop, Submit, Carries, Ring.Indexable, Ring.Do, Engaged;
    DrainKeeps(p, capacity, i, left);
    var q := DrainMove(p, i, left);
    PopStep(p.outbound[i], left);
    var v, w := View(p, capacity), View(q, capacity);
    if AfterPop(p.outbound[i], left).1.Popped? {
      SameView(Do(v, Drain(i)), w);
    } else {
      SameView(v, w);
    }
  }

  /** Work that touches no ring. */
  lemma {:induction false} QuietKeeps(p: RingPipe, capacity: nat, i: nat, left: CommandMsg)
    requires Possible(p, capacity, WorkAccess(i, left)) && !p.workers[i].Polling? && !p.workers[i].Pushing?
    ensures Ring.Indexable(p.inbound[i]) && Ring.Indexable(p.outbound[i])
    ensures RingInv(WorkMove(p, i, left), capacity)
  {
    hide Ring.Inv, Ring.Queue, Given, AfterPop, AfterPush, Carries, Ring.Indexable, Ring.Do, Submit;
    RingsUsable(p.inbound, capacity);
    RingsUsable(p.outbound, capacity);
    var q := WorkMove(p, i, left);
    forall j | 0 <= j < |q.shards|
      ensures Engaged(q, j)
    {
      assert Engaged(p, j);
    }
  }

  lemma {:induction false} QuietRefines(p: RingPipe, capacity: nat, i: nat, left: CommandMsg)
    requires Possible(p, capacity, WorkAccess(i, left)) && !p.workers[i].Polling? && !p.workers[i].Pushing?
    ensures Ring.Indexable(p.inbound[i]) && Ring.Indexable(p.outbound[i])
    ensures RingInv(WorkMove(p, i, left), capacity)
    ensures Simulates(View(p, capacity), Work(i), View(WorkMove(p, i, left), capacity))
  {
    hide Ring.Inv, Ring.Queue, Given, AfterPop, AfterPush, Carries, Ring.Indexable, Ring.Do, Submit, Engaged, Rings;
    QuietKeeps(p, capacity, i, left);
    SameView(Do(View(p, capacity), Work(i)), View(WorkMove(p, i, left), capacity));
  }

  lemma {:induction false} PollKeeps(p: RingPipe, capacity: nat, i: nat, left: CommandMsg)
    requires Possible(p, capacity, WorkAccess(i, left)) && p.workers[i].Polling?
    ensures Ring.Indexable(p.inbound[i]) && Ring.Indexable(p.outbound[i])
    ensures RingInv(WorkMove(p, i, left), capacity)
  {
    hide Ring.Inv, Ring.Queue, Given, AfterPop, AfterPush, Carries, Ring.Indexable, Ring.Do, Submit;
    RingsUsable(p.inbound, capacity);
    RingsUsable(p.outbound, capacity);
    var q := WorkMove(p, i, left);
    PopStep(p.inbound[i], left);
    OneRing(p.inbound, capacity, i, q.inbound[i]);
    SameProducer(p.inbound[i], q.inbound[i]);
    forall j | 0 <= j < |q.shards|
      ensures Engaged(q, j)
    {
      assert Engaged(p, j);
    }
  }

  lemma {:induction false} PollRefines(p: RingPipe, capacity: nat, i: nat, left: CommandMsg)
    requires Possible(p, capacity, WorkAccess(i, left)) && p.workers[i].Polling?
    ensures Ring.Indexable(p.inbound[i]) && Ring.Indexable(p.outbound[i])
    ensures RingInv(WorkMove(p, i, left), capacity)
    ensures Simulates(View(p, capacity), Work(i), View(WorkMove(p, i, left), capacity))
  {
    hide Ring.Inv, Ring.Queue, Given, AfterPop, AfterPush, Carries, Ring.Indexable, Ring.Do, Submit, Engaged;
    PollKeeps(p, capacity, i, left);
    var q := WorkMove(p, i, left);
    PopStep(p.inbound[i], left);
    var v, w := View(p, capacity), View(q, capacity);
    if AfterPop(p.inbound[i], left).1.Popping? {
      SameView(v, w);
    } else {
      SameView(Do(v, Work(i)), w);
    }
  }

  lemma {:induction false} PushKeeps(p: RingPipe, capacity: nat, i: nat, left: CommandMsg)
    requires Possible(p, capacity, WorkAccess(i, left)) && p.workers[i].Pushing?
    ensures Ring.Indexable(p.inbound[i]) && Ring.Indexable(p.outbound[i])
    ensures RingInv(WorkMove(p, i, left), capacity)
  {
    hide Ring.Inv, Ring.Queue, Given, AfterPop, AfterPush, Carries, Ring.Indexable, Ring.Do, Submit;
    RingsUsable(p.inbound, capacity);
    RingsUsable(p.outbound, capacity);
    var q, r := WorkMove(p, i, left), p.workers[i].result;
    assert Engaged(p, i);
    NewPush(p.outbound[i], r);
    PushStep(p.outbound[i], r);
    OneRing(p.outbound, capacity, i, q.outbound[i]);
    forall j | 0 <= j < |q.shards|
      ensures Engaged(q, j)
    {
      assert Engaged(p, j);
    }
  }

  lemma {:induction false} PushRefines(p: RingPipe, capacity: nat, i: nat, left: CommandMsg)
    requires Possible(p, capacity, WorkAccess(i, left)) && p.workers[i].Pushing?
    ensures Ring.Indexable(p.inbound[i]) && Ring.Indexable(p.outbound[i])
    ensures RingInv(WorkMove(p, i, left), capacity)
    ensures Simulates(View(p, capacity), Work(i), View(WorkMove(p, i, left), capacity))
  {
    hide Ring.Inv, Ring.Queue, Given, AfterPop, AfterPush, Carries, Ring.Indexable, Ring.Do, Submit;
    PushKeeps(p, capacity, i, left);
    var q, r := WorkMove(p, i, left), p.workers[i].result;
    assert Engaged(p, i);
    NewPush(p.outbound[i], r);
    PushStep(p.outbound[i], r);
    var v, w := View(p, capacity), View(q, capacity);
    if AfterPush(p.outbound[i], r).1.Pushing? {
      SameView(v, w);
    } else {
      SameView(Do(v, Work(i)), w);
    }
  }

  lemma {:induction false} ControlRefines(p: RingPipe, capacity: nat, m: Move)
    requires Possible(p, capacity, m) && (m.Launch? || m.Halt? || m.Submitting?)
    ensures RingInv(Move1(p, capacity, m), capacity)
    ensures Simulates(View(p, capacity), Seen(m), View(Move1(p, capacity, m), capacity))
  {
    hide Ring.Inv, Ring.Queue, Given, AfterPop, AfterPush, Carries, Ring.Indexable, Ring.Do, Submit, ShardOf, Rings;
    var q := Move1(p, capacity, m);
    forall j | 0 <= j < |q.shards|
      ensures Engaged(q, j)
    {
      assert Engaged(p, j);
    }
    SameView(Do(View(p, capacity), Seen(m)), View(q, capacity));
  }

  /** The step of the simple pipeline that a move may amount to. */
  function Seen(m: Move): Action {
    match m
    case Launch => Start
    case Halt => Stop
    case Submitting(message) => Submission(message)
    case OfferAccess => Offer
    case WorkAccess(i, _) => Work(i)
    case DrainAccess(i, _) => Drain(i)
  }

  /** Every access of every thread is invisible or one step of the pipeline over
      bounded queues. */
  lemma {:induction false} MoveRefines(p: RingPipe, capacity: nat, m: Move)
    requires Possible(p, capacity, m)
    ensures RingInv(Move1(p, capacity, m), capacity)
    ensures Simulates(View(p, capacity), Seen(m), View(Move1(p, capacity, m), capacity))
  {
    hide RingInv, Simulates, View, OfferMove, WorkMove, DrainMove;
    match m
    case OfferAccess => OfferRefines(p, capacity);
    case DrainAccess(i, left) => DrainRefines(p, capacity, i, left);
    case WorkAccess(i, left) =>
      if p.workers[i].Polling? {
        PollRefines(p, capacity, i, left);
      } else if p.workers[i].Pushing? {
        PushRefines(p, capacity, i, left);
      } else {
        QuietRefines(p, capacity, i, left);
      }
    case _ => ControlRefines(p, capacity, m);
  }

  // ---------------------------------------------------------------- runs

  ghost predicate Moves(p: RingPipe, capacity: nat, moves: seq<Move>)
    decreases |moves|
  {
    moves == [] || (Possible(p, capacity, moves[0]) && Moves(Move1(p, capacity, moves[0]), capacity, moves[1..]))
  }

  ghost function Moved(p: RingPipe, capacity: nat, moves: seq<Move>): RingPipe
    requires Moves(p, capacity, moves)
    decreases |moves|
  {
    if moves == [] then p else Moved(Move1(p, capacity, moves[0]), capacity, moves[1..])
  }

  /** Any run over rings looks like a run over bounded queues. */
  lemma {:induction false} RunRefines(p: RingPipe, capacity: nat, moves: seq<Move>) returns (actions: seq<Action>)
    requires RingInv(p, capacity) && Moves(p, capacity, moves)
    ensures var q := Moved(p, capacity, moves);
            && RingInv(q, capacity)
            && Runs(View(p, capacity), actions) && After(View(p, capacity), actions) == View(q, capacity)
    decreases |moves|
  {
    hide View, Move1, Possible, Enabled, Do, Engaged, Rings;
    if moves == [] {
      actions := [];
      NoMore(View(p, capacity));
    } else {
      MoveRefines(p, capacity, moves[0]);
      var p1 := Move1(p, capacity, moves[0]);
      var rest := RunRefines(p1, capacity, moves[1..]);
      if View(p1, capacity) == View(p, capacity) {
        actions := rest;
      } else {
        StepBack(View(p, capacity), Seen(moves[0]), View(p1, capacity), rest);
        actions := [Seen(moves[0])] + rest;
      }
    }
  }

  /** Fresh rings of a power-of-two size, whatever their slots hold. */
  function Fresh(limits: RiskLimits, inbound: seq<seq<CommandMsg>>, outbound: seq<seq<ResultMsg>>): RingPipe
    requires |inbound| == |outbound|
  {
    var n := |inbound|;
    RingPipe(limits, ShardedSpec.Start(n),
             seq(n, i requires 0 <= i < n => Ring.Fresh(inbound[i])), seq(n, i requires 0 <= i < n => Ring.Fresh(outbound[i])),
             seq(n, _ => NotStarted), seq(n, _ => []), Idle, false, [], true)
  }

  ghost predicate SlotsOk(inbound: seq<seq<CommandMsg>>, outbound: seq<seq<ResultMsg>>, capacity: nat) {
    && 0 < |inbound| == |outbound| && Ring.PowerOfTwo(capacity)
    && forall i :: 0 <= i < |inbound| ==> |inbound[i]| == capacity && |outbound[i]| == capacity
  }

  lemma {:induction false} FreshRing<T>(slots: seq<T>)
    requires Ring.PowerOfTwo(|slots|)
    ensures var s := Ring.Fresh(slots);
            Ring.Inv(s) && s.capacity == |slots| && Ring.Queue(s) == [] && Given(s) == []
  {
    hide Ring.PowerOfTwo;
    Ring.CapacityBound(|slots|);
  }

  lemma {:induction false} FreshView(limits: RiskLimits, inbound: seq<seq<CommandMsg>>, outbound: seq<seq<ResultMsg>>, capacity: nat)
    requires SlotsOk(inbound, outbound, capacity)
    ensures var p := Fresh(limits, inbound, outbound);
            RingInv(p, capacity) && View(p, capacity) == Initial(limits, capacity, |inbound|)
  {
    hide Ring.PowerOfTwo, Ring.Inv, Ring.Queue, Given, Carries;
    var p := Fresh(limits, inbound, outbound);
    forall i | 0 <= i < |inbound|
      ensures Ring.Inv(p.inbound[i]) && p.inbound[i].capacity == capacity && Ring.Queue(p.inbound[i]) == []
      ensures Ring.Inv(p.outbound[i]) && p.outbound[i].capacity == capacity && Ring.Queue(p.outbound[i]) == []
      ensures Given(p.outbound[i]) == []
    {
      FreshRing(inbound[i]);
      FreshRing(outbound[i]);
    }
    assert RingInv(p, capacity);
    SameView(Initial(limits, capacity, |inbound|), View(p, capacity));
  }

  /** The pipeline over real rings, under every interleaving of every access: while no
      push fails, what the consumer has taken out of a shard's ring is the beginning of
      what the sequential engine answers there; and when everything has been drained,
      it is exactly that if and only if no push failed. */
  lemma {:induction false} RingsRefineSequential(limits: RiskLimits, inbound: seq<seq<CommandMsg>>, outbound: seq<seq<ResultMsg>>,
                                               capacity: nat, moves: seq<Move>)
    requires SlotsOk(inbound, outbound, capacity) && Moves(Fresh(limits, inbound, outbound), capacity, moves)
    ensures var p, n := Moved(Fresh(limits, inbound, outbound), capacity, moves), |inbound|;
            && RingInv(p, capacity) && |p.shards| == n
            && (p.clean ==> forall i :: 0 <= i < n ==> Given(p.outbound[i]) <= Expected(limits, n, p.submitted, i))
            && (AllNamed(p.submitted) && AllDrained(View(p, capacity)) ==>
                  (p.clean <==> forall i :: 0 <= i < n ==> Given(p.outbound[i]) == Expected(limits, n, p.submitted, i)))
  {
    hide RingInv, Moves, Moved, Runs, After, Expected, Given, Ring.Inv, Ring.PowerOfTwo, AllNamed, AllDrained;
    FreshView(limits, inbound, outbound, capacity);
    var start := Fresh(limits, inbound, outbound);
    var actions := RunRefines(start, capacity, moves);
    var p, n := Moved(start, capacity, moves), |inbound|;
    ViewedThroughout(limits, capacity, n, actions, p);
  }

  lemma {:induction false} ViewedThroughout(limits: RiskLimits, capacity: nat, n: nat, actions: seq<Action>, p: RingPipe)
    requires n > 0 && RingInv(p, capacity) && Runs(Initial(limits, capacity, n), actions)
    requires After(Initial(limits, capacity, n), actions) == View(p, capacity)
    ensures |p.shards| == n
    ensures p.clean ==> forall i :: 0 <= i < n ==> Given(p.outbound[i]) <= Expected(limits, n, p.submitted, i)
    ensures AllNamed(p.submitted) && AllDrained(View(p, capacity)) ==>
              (p.clean <==> forall i :: 0 <= i < n ==> Given(p.outbound[i]) == Expected(limits, n, p.submitted, i))
  {
    hide Runs, After, Expected, Given, Ring.PowerOfTwo, Ring.Holding, Ring.Queue, AllNamed, AllDrained, Engaged, InHand, Waiting;
    InitialMarked(limits, capacity, n);
    RunMarked(Initial(limits, capacity, n), actions);
    assert forall i :: 0 <= i < n ==> View(p, capacity).lanes[i].drained == Given(p.outbound[i]);
    if p.clean {
      forall i | 0 <= i < n
        ensures Given(p.outbound[i]) <= Expected(limits, n, p.submitted, i)
      {
        PipelineRefines(limits, capacity, n, actions, i);
      }
    }
    if AllNamed(p.submitted) && AllDrained(View(p, capacity)) {
      ExactlyWhenClean(limits, capacity, n, actions);
    }
  }
}
