/** The single-producer single-consumer ring (include/spsc_queue.hpp) as a state
    machine: every load, slot access and store is one step, and the two threads
    interleave arbitrarily.  The counters wrap at 64 bits. */
module Ring {
  import opened Bits

  /** Where the producer is inside `push`. */
  datatype Producer<T> =
    | Resting
    | HeadRead(value: T, head: nat)
    | RoomSeen(value: T, head: nat)
    | Stored(value: T, head: nat)

  /** Where the consumer is inside `pop`. */
  datatype Consumer =
    | Waiting
    | TailRead(tail: nat)
    | DataSeen(tail: nat)
    | Taken(tail: nat)

  /** `pushed` and `popped` record what was published and what was taken out, ever. */
  datatype State<T> = State(
    capacity: nat, slots: seq<T>, head: nat, tail: nat,
    producer: Producer<T>, consumer: Consumer, pushed: seq<T>, popped: seq<T>)
  {
    /** Values consumed and given back: those counted by `tail`. */
    function Released(): int {
      |popped| - if consumer.Taken? then 1 else 0
    }
  }

  /** `slots_[counter & mask_]` */
  function Slot(counter: nat, capacity: nat): (i: nat)
    requires capacity > 0
    ensures i < capacity
  {
    And(counter, capacity - 1)
  }

  /** One atomic access by one of the threads.  `Take(left)` says what moving a
      value out leaves in its slot. */
  datatype Access<T> =
    | ReadHead(value: T) | CheckRoom | Store | PublishHead
    | ReadTail | CheckData | Take(left: T) | PublishTail

  predicate Enabled<T>(s: State<T>, a: Access<T>) {
    match a
    case ReadHead(_) => s.producer.Resting?
    case CheckRoom => s.producer.HeadRead?
    case Store => s.producer.RoomSeen?
    case PublishHead => s.producer.Stored?
    case ReadTail => s.consumer.Waiting?
    case CheckData => s.consumer.TailRead?
    case Take(_) => s.consumer.DataSeen?
    case PublishTail => s.consumer.Taken?
  }

  /** Does `push` find the ring full when it reads `tail`? */
  predicate SeesFull(head: nat, tail: nat, capacity: nat) {
    Wrap(Wrap(head + 1) - tail) > capacity
  }

  predicate Indexable<T>(s: State<T>) {
    0 < s.capacity == |s.slots|
  }

  function Do<T>(s: State<T>, a: Access<T>): State<T>
    requires Enabled(s, a) && Indexable(s)
  {
    match a
    case ReadHead(value) => s.(producer := HeadRead(value, s.head))
    case CheckRoom =>
      if SeesFull(s.producer.head, s.tail, s.capacity) then s.(producer := Resting)
      else s.(producer := RoomSeen(s.producer.value, s.producer.head))
    case Store =>
      s.(slots := s.slots[Slot(s.producer.head, s.capacity) := s.producer.value],
         producer := Stored(s.producer.value, s.producer.head))
    case PublishHead =>
      s.(head := Wrap(s.producer.head + 1), producer := Resting, pushed := s.pushed + [s.producer.value])
    case ReadTail => s.(consumer := TailRead(s.tail))
    case CheckData =>
      s.(consumer := if s.consumer.tail == s.head then Waiting else DataSeen(s.consumer.tail))
    case Take(left) =>
      var i := Slot(s.consumer.tail, s.capacity);
      s.(slots := s.slots[i := left], consumer := Taken(s.consumer.tail), popped := s.popped + [s.slots[i]])
    case PublishTail => s.(tail := Wrap(s.consumer.tail + 1), consumer := Waiting)
  }

  // ---------------------------------------------------------------- the invariant

  ghost predicate PowerOfTwo(n: nat) {
    exists k: nat :: k <= 63 && n == Pow2(k)
  }

  /** Slots promised to the producer that are not counted by `head` yet. */
  function Claimed<T>(p: Producer<T>): nat {
    if p.RoomSeen? || p.Stored? then 1 else 0
  }

  ghost predicate Counted<T>(s: State<T>) {
    && PowerOfTwo(s.capacity) && |s.slots| == s.capacity
    && 0 <= s.Released() <= |s.popped| <= |s.pushed|
    && |s.pushed| - s.Released() + Claimed(s.producer) <= s.capacity
    && s.head == Wrap(|s.pushed|) && s.tail == Wrap(s.Released())
    && (!s.producer.Resting? ==> s.producer.head == s.head)
    && (!s.consumer.Waiting? ==> s.consumer.tail == s.tail)
    && (s.consumer.DataSeen? ==> |s.popped| < |s.pushed|)
  }

  /** What was published and not taken is in its slot; so is what the producer stored. */
  ghost predicate Holding<T>(s: State<T>)
    requires s.capacity > 0 && |s.slots| == s.capacity
  {
    && (forall i :: |s.popped| <= i < |s.pushed| ==> s.slots[i % s.capacity] == s.pushed[i])
    && (s.producer.Stored? ==> s.slots[|s.pushed| % s.capacity] == s.producer.value)
  }

  ghost predicate Inv<T>(s: State<T>) {
    Counted(s) && s.popped <= s.pushed && s.capacity > 0 && Holding(s)
  }

  /** The mask picks the slot of the unwrapped count. */
  lemma {:induction false} SlotIs(n: nat, capacity: nat)
    requires PowerOfTwo(capacity)
    ensures capacity > 0 && Slot(Wrap(n), capacity) == n % capacity
  {
    hide Pow2, And, Wrap;
    var k: nat :| k <= 63 && capacity == Pow2(k);
    MaskIsModulo(Wrap(n), k);
    WrapModulo(n, k);
  }

  lemma {:induction false} CapacityBound(capacity: nat)
    requires PowerOfTwo(capacity)
    ensures 0 < capacity <= 0x8000_0000_0000_0000
  {
    hide Pow2;
    var k: nat :| k <= 63 && capacity == Pow2(k);
    Pow2Word();
    Pow2Monotone(k, 63);
  }

  /** Counts less than a capacity apart have slots of their own. */
  lemma {:induction false} SlotsDiffer(i: nat, j: nat, capacity: nat)
    requires i < j < i + capacity
    ensures i % capacity != j % capacity
  {
    var q := j / capacity - i / capacity;
    if i % capacity == j % capacity {
      assert j - i == capacity * q by {
        assert capacity * q == capacity * (j / capacity) - capacity * (i / capacity);
      }
      SmallMultiple(capacity, q);
    }
  }

  // ---------------------------------------------------------------- steps

  /** A full ring is seen exactly when it is full, even after the counters wrap. */
  lemma {:induction false} FullExactly(pushed: nat, released: nat, capacity: nat)
    requires PowerOfTwo(capacity) && released <= pushed <= released + capacity
    ensures SeesFull(Wrap(pushed), Wrap(released), capacity) <==> pushed - released == capacity
  {
    CapacityBound(capacity);
    WrapNext(pushed);
    WrapDistance(pushed + 1, released);
  }

  lemma {:induction false} EmptyExactly(pushed: nat, released: nat, capacity: nat)
    requires PowerOfTwo(capacity) && released <= pushed <= released + capacity
    ensures Wrap(released) == Wrap(pushed) <==> pushed == released
  {
    CapacityBound(capacity);
    WrapDistance(pushed, released);
  }

  /** No step writes a slot that still holds a value someone is owed: the producer
      stores outside everything not yet released, and taking a value out touches
      only its own slot. */
  ghost predicate Harmless<T>(s: State<T>, a: Access<T>)
    requires Enabled(s, a) && Indexable(s)
  {
    match a
    case Store => forall i :: s.Released() <= i < |s.pushed| ==> Slot(s.producer.head, s.capacity) != i % s.capacity
    case Take(_) =>
      && Slot(s.consumer.tail, s.capacity) == |s.popped| % s.capacity
      && (forall i :: |s.popped| < i < |s.pushed| + Claimed(s.producer) ==>
            Slot(s.consumer.tail, s.capacity) != i % s.capacity)
    case _ => Do(s, a).slots == s.slots
  }

  lemma {:induction false} StepHarmless<T>(s: State<T>, a: Access<T>)
    requires Inv(s) && Enabled(s, a)
    ensures Harmless(s, a)
  {
    hide PowerOfTwo, And, Wrap;
    if a.Store? {
      SlotIs(|s.pushed|, s.capacity);
      forall i | s.Released() <= i < |s.pushed|
        ensures Slot(s.producer.head, s.capacity) != i % s.capacity
      {
        SlotsDiffer(i, |s.pushed|, s.capacity);
      }
    } else if a.Take? {
      SlotIs(|s.popped|, s.capacity);
      forall i | |s.popped| < i < |s.pushed| + Claimed(s.producer)
        ensures Slot(s.consumer.tail, s.capacity) != i % s.capacity
      {
        SlotsDiffer(|s.popped|, i, s.capacity);
      }
    }
  }

  lemma {:induction false} StoreInv<T>(s: State<T>)
    requires Inv(s) && Enabled(s, Access<T>.Store)
    ensures Inv(Do(s, Access<T>.Store))
  {
    hide PowerOfTwo, And, Wrap;
    StepHarmless(s, Access<T>.Store);
    SlotIs(|s.pushed|, s.capacity);
  }

  lemma {:induction false} PublishHeadInv<T>(s: State<T>)
    requires Inv(s) && Enabled(s, Access<T>.PublishHead)
    ensures Inv(Do(s, Access<T>.PublishHead))
  {
    hide PowerOfTwo, And, Wrap;
    WrapNext(|s.pushed|);
  }

  lemma {:induction false} TakeInv<T>(s: State<T>, left: T)
    requires Inv(s) && Enabled(s, Take(left))
    ensures Inv(Do(s, Take(left)))
  {
    hide PowerOfTwo, And, Wrap;
    StepHarmless(s, Take(left));
    SlotIs(|s.popped|, s.capacity);
    var s1 := Do(s, Take(left));
    assert s1.popped == s.pushed[..|s.popped| + 1];
    if s.producer.Stored? {
      SlotsDiffer(|s.popped|, |s.pushed|, s.capacity);
    }
  }

  lemma {:induction false} CheckInv<T>(s: State<T>, a: Access<T>)
    requires Inv(s) && Enabled(s, a) && (a.CheckRoom? || a.CheckData? || a.PublishTail?)
    ensures Inv(Do(s, a))
  {
    hide PowerOfTwo, And, Wrap, SeesFull;
    FullExactly(|s.pushed|, s.Released(), s.capacity);
    EmptyExactly(|s.pushed|, s.Released(), s.capacity);
    WrapNext(s.Released());
  }

  /** Every step of either thread keeps the invariant. */
  lemma {:induction false} StepInv<T>(s: State<T>, a: Access<T>)
    requires Inv(s) && Enabled(s, a)
    ensures Inv(Do(s, a))
  {
    hide PowerOfTwo, And, Wrap, SeesFull;
    match a
    case ReadHead(_) =>
    case CheckRoom => CheckInv(s, a);
    case Store => StoreInv(s);
    case PublishHead => PublishHeadInv(s);
    case ReadTail =>
    case CheckData => CheckInv(s, a);
    case Take(left) => TakeInv(s, left);
    case PublishTail => CheckInv(s, a);
  }

  // ---------------------------------------------------------------- refinement of a bounded queue

  /** The queue a client sees: published and not yet released. */
  function Queue<T>(s: State<T>): seq<T>
    requires 0 <= s.Released() <= |s.pushed|
  {
    s.pushed[s.Released()..]
  }

  /** The value a `push` under way carries, or a `pop` under way has taken. */
  ghost predicate Refines<T>(s: State<T>, a: Access<T>, s1: State<T>)
    requires Enabled(s, a) && 0 <= s.Released() <= |s.pushed| && 0 <= s1.Released() <= |s1.pushed|
  {
    match a
    case PublishHead => |Queue(s)| < s.capacity && Queue(s1) == Queue(s) + [s.producer.value]
    case PublishTail => Queue(s) != [] && s.popped != [] && Queue(s)[0] == s.popped[|s.popped| - 1] && Queue(s1) == Queue(s)[1..]
    case CheckRoom => Queue(s1) == Queue(s) && (s1.producer.Resting? <==> |Queue(s)| == s.capacity)
    case CheckData => Queue(s1) == Queue(s) && (s1.consumer.Waiting? <==> Queue(s) == [])
    case _ => Queue(s1) == Queue(s)
  }

  /** Each step is a queue operation or invisible: publishing `head` appends, when
      there is room; publishing `tail` removes the first value, the one taken out;
      and a failing check means full, or empty, at that moment. */
  lemma {:induction false} StepRefines<T>(s: State<T>, a: Access<T>)
    requires Inv(s) && Enabled(s, a)
    ensures Inv(Do(s, a)) && Refines(s, a, Do(s, a))
  {
    hide PowerOfTwo, And, Wrap, SeesFull, Holding;
    StepInv(s, a);
    FullExactly(|s.pushed|, s.Released(), s.capacity);
    EmptyExactly(|s.pushed|, s.Released(), s.capacity);
  }

  // ---------------------------------------------------------------- runs

  /** A fresh ring of `capacity` slots with whatever they hold. */
  function Fresh<T>(slots: seq<T>): State<T> {
    State(|slots|, slots, 0, 0, Resting, Waiting, [], [])
  }

  predicate Runs<T>(s: State<T>, accesses: seq<Access<T>>)
    decreases |accesses|
  {
    accesses == []
    || (Enabled(s, accesses[0]) && Indexable(s) && Runs(Do(s, accesses[0]), accesses[1..]))
  }

  function After<T>(s: State<T>, accesses: seq<Access<T>>): State<T>
    requires Runs(s, accesses)
    decreases |accesses|
  {
    if accesses == [] then s else After(Do(s, accesses[0]), accesses[1..])
  }

  lemma {:induction false} RunInv<T>(s: State<T>, accesses: seq<Access<T>>)
    requires Inv(s) && Runs(s, accesses)
    ensures Inv(After(s, accesses))
    decreases |accesses|
  {
    hide Inv;
    if accesses != [] {
      StepInv(s, accesses[0]);
      RunInv(Do(s, accesses[0]), accesses[1..]);
    }
  }

  /** Under every interleaving: values come out in the order they went in, never
      more than `capacity` are inside, and the next step of either thread leaves
      the values still owed where they are. */
  lemma {:induction false} RingIsFifo<T>(slots: seq<T>, accesses: seq<Access<T>>, next: Access<T>)
    requires PowerOfTwo(|slots|) && Runs(Fresh(slots), accesses)
    ensures var s := After(Fresh(slots), accesses);
            && s.popped <= s.pushed
            && 0 <= |s.pushed| - s.Released() <= |slots|
            && (Enabled(s, next) ==> Indexable(s) && Harmless(s, next))
  {
    hide PowerOfTwo, Runs, After, Harmless;
    assert Inv(Fresh(slots)) by { CapacityBound(|slots|); }
    RunInv(Fresh(slots), accesses);
    RunCapacity(Fresh(slots), accesses);
    var s := After(Fresh(slots), accesses);
    if Enabled(s, next) {
      StepHarmless(s, next);
    }
  }

  lemma {:induction false} RunCapacity<T>(s: State<T>, accesses: seq<Access<T>>)
    requires Runs(s, accesses)
    ensures After(s, accesses).capacity == s.capacity
    decreases |accesses|
  {
    if accesses != [] {
      RunCapacity(Do(s, accesses[0]), accesses[1..]);
    }
  }

  // ---------------------------------------------------------------- rounding the capacity

  /** `p` after `k` turns of `p <<= 1` on 64 bits. */
  function Shifted(k: nat): nat {
    if k == 0 then 1 else Wrap(2 * Shifted(k - 1))
  }

  lemma {:induction false} ShiftedIs(k: nat)
    ensures Shifted(k) == if k <= 63 then Pow2(k) else 0
  {
    hide Pow2;
    Pow2Word();
    Pow2Succ(0);
    if k > 0 {
      ShiftedIs(k - 1);
      if k <= 63 {
        Pow2Succ(k - 1);
        Pow2Monotone(k, 63);
      } else if k == 64 {
        assert Wrap(2 * 0x8000_0000_0000_0000) == 0;
      }
    }
  }

  /** The rounding loop ends if and only if the request is at most 2^63. */
  lemma {:induction false} RoundingEnds(v: nat)
    ensures (exists k: nat :: Shifted(k) >= v) <==> v <= 0x8000_0000_0000_0000
  {
    hide Pow2, Shifted;
    Pow2Word();
    ShiftedIs(63);
    if k: nat :| Shifted(k) >= v {
      ShiftedIs(k);
      if k <= 63 {
        Pow2Monotone(k, 63);
      }
    }
  }

  /** The least power of two that is not below the request. */
  method RoundUpPow2(v: nat) returns (p: nat)
    requires v <= 0x8000_0000_0000_0000
    ensures PowerOfTwo(p) && p >= v
    ensures forall k: nat :: Pow2(k) >= v ==> p <= Pow2(k)
  {
    hide Pow2, Shifted;
    p := 1;
    ghost var k: nat := 0;
    Pow2Word();
    Pow2Succ(0);
    while p < v
      invariant k <= 63 && p == Pow2(k)
      invariant k > 0 ==> Pow2(k - 1) < v
      decreases 63 - k
    {
      if k == 63 {
        assert false;
      }
      Pow2Succ(k);
      Pow2Monotone(k + 1, 63);
      p := Wrap(2 * p);
      k := k + 1;
    }
    forall j: nat | Pow2(j) >= v
      ensures p <= Pow2(j)
    {
      if j < k {
        Pow2Monotone(j, k - 1);
      } else {
        Pow2Monotone(k, j);
      }
    }
  }
}
