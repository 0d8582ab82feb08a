/** The ring as an object: `push` and `pop` run to completion on its slot array. */
module SpscQueueImpl {
  import opened Orders
  import opened Bits
  import opened Ring

  class SpscQueue<T(0)> {
    const capacity: nat
    const mask: nat
    const slots: array<T>
    var head: nat
    var tail: nat
    /** The counters as they would be if they did not wrap. */
    ghost var pushed: nat
    ghost var released: nat

    ghost predicate Valid()
      reads this
    {
      && PowerOfTwo(capacity) && capacity > 0 && mask == capacity - 1 && slots.Length == capacity
      && released <= pushed <= released + capacity
      && head == Wrap(pushed) && tail == Wrap(released)
    }

    ghost function Contents(): (q: seq<T>)
      requires Valid()
      reads this, slots
      ensures |q| == pushed - released
    {
      seq(pushed - released, i requires 0 <= i < pushed - released && Valid() reads this, slots =>
        slots[(released + i) % capacity])
    }

    /** A request of zero gives one slot. */
    constructor (request: nat)
      requires request <= 0x8000_0000_0000_0000
      ensures Valid() && fresh(slots) && Contents() == []
      ensures capacity >= request && forall k: nat :: Pow2(k) >= request ==> capacity <= Pow2(k)
    {
      hide Pow2;
      var p := RoundUpPow2(request);
      CapacityBound(p);
      capacity, mask, slots := p, p - 1, new T[p];
      head, tail, pushed, released := 0, 0, 0, 0;
    }

    method Push(value: T) returns (ok: bool)
      requires Valid()
      modifies this`head, this`pushed, slots
      ensures Valid()
      ensures ok == (|old(Contents())| < capacity)
      ensures Contents() == if ok then old(Contents()) + [value] else old(Contents())
    {
      hide PowerOfTwo, And, Wrap;
      var next := Wrap(head + 1);
      FullExactly(pushed, released, capacity);
      if Wrap(next - tail) > capacity {
        return false;
      }
      SlotIs(pushed, capacity);
      forall i | released <= i < pushed
        ensures i % capacity != pushed % capacity
      {
        SlotsDiffer(i, pushed, capacity);
      }
      slots[And(head, mask)] := value;
      WrapNext(pushed);
      head, pushed := next, pushed + 1;
      return true;
    }

    /** `left` is what moving a value out leaves behind. */
    method Pop(left: T) returns (out: Option<T>)
      requires Valid()
      modifies this`tail, this`released, slots
      ensures Valid()
      ensures out == if old(Contents()) == [] then None else Some(old(Contents())[0])
      ensures Contents() == if out.Some? then old(Contents())[1..] else old(Contents())
    {
      hide PowerOfTwo, And, Wrap;
      EmptyExactly(pushed, released, capacity);
      if tail == head {
        return None;
      }
      SlotIs(released, capacity);
      forall i | released < i < pushed
        ensures i % capacity != released % capacity
      {
        SlotsDiffer(released, i, capacity);
      }
      out := Some(slots[And(tail, mask)]);
      slots[And(tail, mask)] := left;
      WrapNext(released);
      tail, released := Wrap(tail + 1), released + 1;
    }
  }
}
