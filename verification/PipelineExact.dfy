/** Exactly when the pipeline does what the sequential engine does: when no push
    failed.  A failed push spoils a message for good, wherever it happens. */
module PipelineExact {
  import opened Orders
  import opened EngineInvariants
  import opened ShardedSpec
  import opened Pipeline
  import opened FailedPush

  // ---------------------------------------------------------------- spoilt messages

  predicate Nameless(msg: CommandMsg) {
    SymbolOf(msg.message.command) == ""
  }

  /** No result of a command with a symbol looks like this. */
  predicate Spoilt(r: ResultMsg) {
    r.events == [] || r.events[0].event.symbol == ""
  }

  /** Something in the lane was moved away by a failed push. */
  ghost predicate Dirty(lane: Lane, pending: seq<CommandMsg>) {
    (exists r :: r in Results(lane) && Spoilt(r)) || (exists m :: m in Waiting(lane, pending) && Nameless(m))
  }

  ghost predicate AllHealthy(shards: seq<Shard>) {
    forall i :: 0 <= i < |shards| ==> WellFormed(shards[i].engine)
  }

  /** What every run keeps, failed pushes or not. */
  ghost predicate Marked(p: Pipe) {
    && Shaped(p) && AllHealthy(p.shards)
    && (!p.clean ==> exists i :: 0 <= i < |p.lanes| && Dirty(p.lanes[i], PendingFor(p.submitter, i)))
  }

  // ---------------------------------------------------------------- dirt stays

  lemma {:induction false} SameContents(lane: Lane, pending: seq<CommandMsg>, lane1: Lane, pending1: seq<CommandMsg>)
    requires Dirty(lane, pending)
    requires forall r :: r in Results(lane) ==> r in Results(lane1)
    requires forall m :: m in Waiting(lane, pending) ==> m in Waiting(lane1, pending1)
    ensures Dirty(lane1, pending1)
  {
    hide Results, Waiting;
  }

  lemma {:induction false} ExecutedStays(lane: Lane, pending: seq<CommandMsg>, r: ResultMsg)
    requires Dirty(lane, pending) && lane.worker.Executing? && (Nameless(lane.worker.msg) ==> Spoilt(r))
    ensures Dirty(lane.(worker := PushTest(r)), pending)
  {
    hide Spoilt, Nameless;
    var lane1, msg := lane.(worker := PushTest(r)), lane.worker.msg;
    assert r in Results(lane1);
    if x :| x in Results(lane) && Spoilt(x) {
      assert x in Results(lane1);
    } else {
      var m :| m in Waiting(lane, pending) && Nameless(m);
      if m != msg {
        assert m in Waiting(lane1, pending);
      }
    }
  }

  lemma {:induction false} FailedOutbound(lane: Lane, pending: seq<CommandMsg>, running: bool, capacity: nat)
    requires PushFails(lane, capacity)
    ensures Dirty(WorkOn(lane, running, capacity), pending)
  {
    var lane1 := WorkOn(lane, running, capacity);
    assert lane1.worker.result in Results(lane1);
  }

  lemma {:induction false} WorkedStays(lane: Lane, pending: seq<CommandMsg>, running: bool, capacity: nat)
    requires Dirty(lane, pending) && !lane.worker.Executing?
    ensures Dirty(WorkOn(lane, running, capacity), pending)
  {
    hide Dirty;
    if PushFails(lane, capacity) {
      FailedOutbound(lane, pending, running, capacity);
    } else {
      var lane1 := WorkOn(lane, running, capacity);
      assert forall r :: r in Results(lane) ==> r in Results(lane1);
      assert forall m :: m in Waiting(lane, pending) ==> m in Waiting(lane1, pending);
      SameContents(lane, pending, lane1, pending);
    }
  }

  // ---------------------------------------------------------------- steps

  lemma {:induction false} SubmitHealthy(limits: RiskLimits, shards: seq<Shard>, msg: Message)
    requires shards != [] && AllHealthy(shards)
    ensures AllHealthy(Submit(limits, shards, msg).0)
  {
    hide WellFormed, Handle, ShardOf;
    HandleOk(limits, shards[ShardOf(SymbolOf(msg.command), |shards|)], msg);
  }

  lemma {:induction false} NamelessAnswer(limits: RiskLimits, shards: seq<Shard>, msg: CommandMsg)
    requires shards != [] && AllHealthy(shards) && Nameless(msg)
    ensures Spoilt(Answer(msg, Submit(limits, shards, msg.message).1))
  {
    hide WellFormed, Handle, ShardOf;
    AnswerNamesSymbol(limits, shards[ShardOf(SymbolOf(msg.message.command), |shards|)], msg.message);
  }

  lemma {:induction false} ExecuteMarked(p: Pipe, i: nat)
    requires Marked(p) && Enabled(p, Work(i)) && p.lanes[i].worker.Executing?
    ensures Marked(Do(p, Work(i)))
  {
    hide Dirty, AllHealthy, Submit, Nameless, Spoilt;
    var msg := p.lanes[i].worker.msg;
    SubmitHealthy(p.limits, p.shards, msg.message);
    if Nameless(msg) {
      NamelessAnswer(p.limits, p.shards, msg);
    }
    if !p.clean {
      var j :| 0 <= j < |p.lanes| && Dirty(p.lanes[j], PendingFor(p.submitter, j));
      if j == i {
        ExecutedStays(p.lanes[i], PendingFor(p.submitter, i), Answer(msg, Submit(p.limits, p.shards, msg.message).1));
      }
      assert Dirty(Do(p, Work(i)).lanes[j], PendingFor(p.submitter, j));
    }
  }

  lemma {:induction false} WorkMarked(p: Pipe, i: nat)
    requires Marked(p) && Enabled(p, Work(i)) && !p.lanes[i].worker.Executing?
    ensures Marked(Do(p, Work(i)))
  {
    hide Dirty, AllHealthy, WorkOn, Submit;
    var q := Do(p, Work(i));
    if PushFails(p.lanes[i], p.capacity) {
      FailedOutbound(p.lanes[i], PendingFor(p.submitter, i), p.running, p.capacity);
      assert Dirty(q.lanes[i], PendingFor(q.submitter, i));
    } else if !p.clean {
      var j :| 0 <= j < |p.lanes| && Dirty(p.lanes[j], PendingFor(p.submitter, j));
      if j == i {
        WorkedStays(p.lanes[i], PendingFor(p.submitter, i), p.running, p.capacity);
      }
      assert Dirty(q.lanes[j], PendingFor(q.submitter, j));
    }
  }

  lemma {:induction false} OfferMarked(p: Pipe)
    requires Marked(p) && Enabled(p, Offer)
    ensures Marked(Do(p, Offer))
  {
    hide AllHealthy, Spoilt, Submit;
    var q, s := Do(p, Offer), p.submitter.shard;
    if |p.lanes[s].inbound| >= p.capacity {
      assert Nameless(q.submitter.msg) && q.submitter.msg in Waiting(q.lanes[s], PendingFor(q.submitter, s));
      assert Dirty(q.lanes[s], PendingFor(q.submitter, s));
    } else if !p.clean {
      var j :| 0 <= j < |p.lanes| && Dirty(p.lanes[j], PendingFor(p.submitter, j));
      if j == s {
        assert Results(q.lanes[s]) == Results(p.lanes[s]);
        assert Waiting(q.lanes[s], []) == Waiting(p.lanes[s], [p.submitter.msg]);
        SameContents(p.lanes[s], PendingFor(p.submitter, s), q.lanes[s], PendingFor(q.submitter, s));
      }
      assert Dirty(q.lanes[j], PendingFor(q.submitter, j));
    }
  }

  /** The remaining steps change no message. */
  lemma {:induction false} QuietMarked(p: Pipe, a: Action)
    requires Marked(p) && Enabled(p, a) && (a.Start? || a.Stop? || a.Submission? || a.Drain?)
    ensures Marked(Do(p, a))
  {
    hide Dirty, AllHealthy, Submit, ShardOf;
    var q := Do(p, a);
    if !p.clean {
      var j :| 0 <= j < |p.lanes| && Dirty(p.lanes[j], PendingFor(p.submitter, j));
      assert Results(q.lanes[j]) == Results(p.lanes[j]);
      assert forall m :: m in Waiting(p.lanes[j], PendingFor(p.submitter, j)) ==> m in Waiting(q.lanes[j], PendingFor(q.submitter, j));
      SameContents(p.lanes[j], PendingFor(p.submitter, j), q.lanes[j], PendingFor(q.submitter, j));
    }
  }

  /** Every step of every thread keeps the mark. */
  lemma {:induction false} StepMarked(p: Pipe, a: Action)
    requires Marked(p) && Enabled(p, a)
    ensures Marked(Do(p, a))
  {
    hide Marked, Do;
    match a
    case Work(i) =>
      if p.lanes[i].worker.Executing? {
        ExecuteMarked(p, i);
      } else {
        WorkMarked(p, i);
      }
    case Offer => OfferMarked(p);
    case _ => QuietMarked(p, a);
  }

  lemma {:induction false} RunMarked(p: Pipe, actions: seq<Action>)
    requires Marked(p) && Runs(p, actions)
    ensures Marked(After(p, actions)) && |After(p, actions).lanes| == |p.lanes|
    decreases |actions|
  {
    hide Marked, Do, Enabled;
    if actions != [] {
      StepMarked(p, actions[0]);
      RunMarked(Do(p, actions[0]), actions[1..]);
    }
  }

  lemma {:induction false} InitialMarked(limits: RiskLimits, capacity: nat, n: nat)
    requires n > 0
    ensures Marked(Initial(limits, capacity, n))
  {
    EmptyOk();
    hide WellFormed;
  }

  // ---------------------------------------------------------------- what the sequential engine answers is never spoilt

  predicate AllNamed(msgs: seq<CommandMsg>) {
    forall k :: 0 <= k < |msgs| ==> !Nameless(msgs[k])
  }

  lemma {:induction false} RoutedNamed(msgs: seq<CommandMsg>, i: nat, n: nat)
    requires n > 0 && AllNamed(msgs)
    ensures AllNamed(Routed(msgs, i, n))
    decreases |msgs|
  {
    hide Target, Nameless;
    if msgs != [] {
      RoutedNamed(msgs[..|msgs| - 1], i, n);
    }
  }

  lemma {:induction false} ServedNames(limits: RiskLimits, msgs: seq<CommandMsg>)
    requires AllNamed(msgs)
    ensures WellFormed(Served(limits, msgs).0.engine)
    ensures forall k :: 0 <= k < |msgs| ==> !Spoilt(Served(limits, msgs).1[k])
    decreases |msgs|
  {
    hide WellFormed, Handle, Spoilt;
    if msgs == [] {
      EmptyOk();
    } else {
      var init, last := msgs[..|msgs| - 1], msgs[|msgs| - 1];
      ServedNames(limits, init);
      var sh := Served(limits, init).0;
      HandleOk(limits, sh, last.message);
      NamedAnswer(limits, sh, last);
    }
  }

  lemma {:induction false} NamedAnswer(limits: RiskLimits, sh: Shard, msg: CommandMsg)
    requires WellFormed(sh.engine) && !Nameless(msg)
    ensures !Spoilt(Answer(msg, Handle(limits, sh, msg.message).1))
  {
    hide WellFormed, Handle;
    AnswerNamesSymbol(limits, sh, msg.message);
  }

  // ---------------------------------------------------------------- the theorem

  /** Everything submitted was executed, and every result reached the consumer. */
  ghost predicate AllDrained(p: Pipe) {
    forall i :: 0 <= i < |p.lanes| ==>
      Waiting(p.lanes[i], PendingFor(p.submitter, i)) == [] && Results(p.lanes[i]) == p.lanes[i].drained
  }

  /** A lane that drained something spoilt did not drain what was expected. */
  lemma {:induction false} DirtyDiffers(limits: RiskLimits, n: nat, p: Pipe, i: nat)
    requires |p.lanes| == n && i < n && AllNamed(p.submitted) && AllDrained(p)
    requires Dirty(p.lanes[i], PendingFor(p.submitter, i))
    ensures p.lanes[i].drained != Expected(limits, n, p.submitted, i)
  {
    hide Results, Waiting, Expected, Served, Routed, Spoilt, WellFormed;
    SequentialSplits(limits, n, p.submitted, i);
    RoutedNamed(p.submitted, i, n);
    ServedNames(limits, Routed(p.submitted, i, n));
    var r :| r in Results(p.lanes[i]) && Spoilt(r);
    assert r in p.lanes[i].drained;
  }

  /** Exactly: in any run whose commands all have a symbol, once everything is drained,
      the shards have handed over what the sequential engine answers if and only if no
      push ever failed. */
  lemma {:induction false} ExactlyWhenClean(limits: RiskLimits, capacity: nat, n: nat, actions: seq<Action>)
    requires n > 0 && Runs(Initial(limits, capacity, n), actions)
    requires var p := After(Initial(limits, capacity, n), actions); AllNamed(p.submitted) && AllDrained(p)
    ensures var p := After(Initial(limits, capacity, n), actions);
            && |p.lanes| == n
            && (p.clean <==> forall i :: 0 <= i < n ==> p.lanes[i].drained == Expected(limits, n, p.submitted, i))
  {
    hide Runs, After, Expected, Dirty, AllHealthy, Results, Waiting;
    var p := After(Initial(limits, capacity, n), actions);
    InitialMarked(limits, capacity, n);
    RunMarked(Initial(limits, capacity, n), actions);
    if p.clean {
      forall i | 0 <= i < n
        ensures p.lanes[i].drained == Expected(limits, n, p.submitted, i)
      {
        CleanDrained(limits, capacity, n, actions, i);
      }
    } else {
      var i :| 0 <= i < |p.lanes| && Dirty(p.lanes[i], PendingFor(p.submitter, i));
      DirtyDiffers(limits, n, p, i);
    }
  }

  lemma {:induction false} CleanDrained(limits: RiskLimits, capacity: nat, n: nat, actions: seq<Action>, i: nat)
    requires i < n && Runs(Initial(limits, capacity, n), actions)
    requires var p := After(Initial(limits, capacity, n), actions); p.clean && |p.lanes| == n && AllDrained(p)
    ensures var p := After(Initial(limits, capacity, n), actions);
            p.lanes[i].drained == Expected(limits, n, p.submitted, i)
  {
    hide Runs, After, Expected, Waiting, InHand;
    PipelineRefines(limits, capacity, n, actions, i);
  }
}
