/** The fixed-capacity FIFO ring buffer of the utility library.

    The storage is an array of `queueSize` slots; `nextIndexInQueue` is the
    slot popped next and `nextFreeIndex` the slot pushed next. The three
    counters are `uint8_t`, so a queue is built with a capacity of at most
    255. The queued values, oldest first, are kept in the ghost field
    `Contents`. */
module UtilsQueue {
  import UtilsMisc

  /** Width of the `uint8_t` counters. */
  const COUNTER_MODULUS: nat := 0x100

  /** The slot `offset` places after `start` in a ring of `size` slots. */
  function Slot(start: nat, offset: nat, size: nat): (slot: nat)
    requires start < size && offset <= size
    ensures slot < size
    ensures start + offset < size ==> slot == start + offset
    ensures size <= start + offset ==> slot == start + offset - size
  {
    if start + offset < size then start + offset else start + offset - size
  }

  /** Distinct offsets below the ring size name distinct slots. */
  lemma SlotsDistinct(start: nat, i: nat, j: nat, size: nat)
    requires start < size && i < size && j < size && i != j
    ensures Slot(start, i, size) != Slot(start, j, size)
  {
  }

  class Queue<T(0)> {
    const queueSize: nat
    const elements: array<T>
    var numberOfElements: nat
    var nextFreeIndex: nat
    var nextIndexInQueue: nat
    ghost var Contents: seq<T>

    ghost predicate Valid()
      reads this, elements
    {
      && elements.Length == queueSize
      && 0 < queueSize < COUNTER_MODULUS
      && numberOfElements <= queueSize
      && nextIndexInQueue < queueSize
      && nextFreeIndex == (if numberOfElements == queueSize then nextIndexInQueue
                           else Slot(nextIndexInQueue, numberOfElements, queueSize))
      && |Contents| == numberOfElements
      && forall i :: 0 <= i < numberOfElements ==> Contents[i] == elements[Slot(nextIndexInQueue, i, queueSize)]
    }

    /** An empty queue of `size` slots; the constructor flushes. */
    constructor (size: nat)
      requires 0 < size < COUNTER_MODULUS
      ensures Valid() && fresh(elements)
      ensures queueSize == size && Contents == []
      ensures numberOfElements == 0 && nextFreeIndex == 0 && nextIndexInQueue == 0
    {
      queueSize := size;
      elements := new T[size];
      numberOfElements := 0;
      nextFreeIndex := 0;
      nextIndexInQueue := 0;
      Contents := [];
    }

    /** Appends `element` unless the queue is full; `errors` reports a full
        queue, which is left as it was. */
    method Push(element: T) returns (errors: bool)
      requires Valid()
      modifies this, elements
      ensures Valid()
      ensures errors <==> old(numberOfElements) == queueSize
      ensures Contents == if errors then old(Contents) else old(Contents) + [element]
      ensures Contents == PushSpec(old(Contents), queueSize, element)
      ensures nextIndexInQueue == old(nextIndexInQueue)
      ensures !errors ==> nextFreeIndex == UtilsMisc.Increment(old(nextFreeIndex), queueSize, COUNTER_MODULUS)
      ensures errors ==> unchanged(this) && unchanged(elements)
    {
      if numberOfElements < queueSize {
        ghost var start := nextIndexInQueue;
        ghost var count := numberOfElements;
        elements[nextFreeIndex] := element;
        numberOfElements := numberOfElements + 1;
        nextFreeIndex := UtilsMisc.IncrementIndexWithRollover(nextFreeIndex, queueSize, COUNTER_MODULUS);
        Contents := Contents + [element];
        forall i | 0 <= i < count
          ensures Contents[i] == elements[Slot(start, i, queueSize)]
        {
          SlotsDistinct(start, i, count, queueSize);
        }
        errors := false;
      } else {
        errors := true;
      }
    }

    /** Removes the oldest element and returns it in `popped`; on an empty
        queue `errors` is set and `popped` is the caller's `element`
        unchanged. */
    method Pop(element: T) returns (errors: bool, popped: T)
      requires Valid()
      modifies this
      ensures Valid()
      ensures errors <==> old(Contents) == []
      ensures errors ==> popped == element && unchanged(this)
      ensures !errors ==> popped == old(Contents)[0] && Contents == old(Contents)[1..]
      ensures !errors ==> nextIndexInQueue == UtilsMisc.Increment(old(nextIndexInQueue), queueSize, COUNTER_MODULUS)
      ensures nextFreeIndex == old(nextFreeIndex)
    {
      popped := element;
      if numberOfElements > 0 {
        popped := elements[nextIndexInQueue];
        ghost var start := nextIndexInQueue;
        nextIndexInQueue := UtilsMisc.IncrementIndexWithRollover(nextIndexInQueue, queueSize, COUNTER_MODULUS);
        numberOfElements := numberOfElements - 1;
        Contents := Contents[1..];
        forall i | 0 <= i < numberOfElements
          ensures Contents[i] == elements[Slot(nextIndexInQueue, i, queueSize)]
        {
          assert Slot(nextIndexInQueue, i, queueSize) == Slot(start, i + 1, queueSize);
        }
        errors := false;
      } else {
        errors := true;
      }
    }

    /** The number of queued elements. */
    method GetNumberOfElements() returns (count: nat)
      requires Valid()
      ensures count == |Contents|
      ensures count <= queueSize
    {
      count := numberOfElements;
    }

    /** Empties the queue; the slots keep their stale values. */
    method Flush()
      requires Valid()
      modifies this
      ensures Valid() && Contents == []
      ensures numberOfElements == 0 && nextFreeIndex == 0 && nextIndexInQueue == 0
    {
      numberOfElements := 0;
      nextFreeIndex := 0;
      nextIndexInQueue := 0;
      Contents := [];
    }
  }

  /** The queue's behaviour on sequences: what `Push` leaves ... */
  function PushSpec<T>(contents: seq<T>, capacity: nat, element: T): (r: seq<T>)
  {
    if |contents| < capacity then contents + [element] else contents
  }

  /** ... and what a run of pushes leaves, in order. */
  function PushAll<T>(contents: seq<T>, capacity: nat, elements: seq<T>): seq<T>
    decreases |elements|
  {
    if elements == [] then contents
    else PushAll(PushSpec(contents, capacity, elements[0]), capacity, elements[1..])
  }

  /** FIFO order: pushing a run of elements that fits behind what is queued
      appends the run unchanged, so popping returns it in the order pushed. */
  lemma {:induction false} PushAllAppends<T>(contents: seq<T>, capacity: nat, elements: seq<T>)
    requires |contents| + |elements| <= capacity
    ensures PushAll(contents, capacity, elements) == contents + elements
    decreases |elements|
  {
    if elements != [] {
      PushAllAppends(contents + [elements[0]], capacity, elements[1..]);
      assert contents + [elements[0]] + elements[1..] == contents + elements;
    }
  }

  /** Once full, the queue drops every further push. */
  lemma {:induction false} PushAllWhenFull<T>(contents: seq<T>, capacity: nat, elements: seq<T>)
    requires capacity <= |contents|
    ensures PushAll(contents, capacity, elements) == contents
    decreases |elements|
  {
    if elements != [] {
      PushAllWhenFull(contents, capacity, elements[1..]);
    }
  }

  /** A queue never holds more than its capacity. */
  lemma {:induction false} PushAllBounded<T>(contents: seq<T>, capacity: nat, elements: seq<T>)
    requires |contents| <= capacity
    ensures |PushAll(contents, capacity, elements)| <= capacity
    decreases |elements|
  {
    if elements != [] {
      PushAllBounded(PushSpec(contents, capacity, elements[0]), capacity, elements[1..]);
    }
  }
}
