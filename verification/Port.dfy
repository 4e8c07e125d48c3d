/**
 The bounded queue behind every port: `RingBuffer` of `src/Port.hpp`.

 `Fifo` is what the queue is for. `RingBuffer` is the circular array, used by one thread at
 a time. `SpscQueue` (in its own file) is the same code used by two threads at once.
 */
module Port {
  import opened Wrappers
  import opened Words

  // ---------------------------------------------------------------- the queue as a value

  /** The queued items, oldest first, and the count of pushes refused since the last drain. */
  datatype Fifo<T> = Fifo(items: seq<T>, overflow: u32)

  function Pushed<T>(q: Fifo<T>, capacity: nat, x: T): Fifo<T> {
    if |q.items| < capacity then q.(items := q.items + [x]) else q.(overflow := Bump(q.overflow))
  }

  function PushAll<T>(q: Fifo<T>, capacity: nat, xs: seq<T>): (r: Fifo<T>)
    decreases |xs|
  {
    if xs == [] then q else PushAll(Pushed(q, capacity, xs[0]), capacity, xs[1..])
  }

  function Min(a: nat, b: nat): nat {
    if a < b then a else b
  }

  /** How many of `n` further items fit. */
  function Fitting<T>(q: Fifo<T>, capacity: nat, n: nat): nat {
    if |q.items| >= capacity then 0 else Min(n, capacity - |q.items|)
  }

  /** Pushing a batch keeps its longest fitting prefix, in order, and counts the rest. */
  lemma {:induction false} PushAllKeepsPrefix<T>(q: Fifo<T>, capacity: nat, xs: seq<T>)
    ensures var kept := Fitting(q, capacity, |xs|);
      PushAll(q, capacity, xs) == Fifo(q.items + xs[..kept], (q.overflow + (|xs| - kept)) % TWO32)
    decreases |xs|
  {
    var kept := Fitting(q, capacity, |xs|);
    if xs == [] {
      assert q.items + xs[..kept] == q.items;
    } else {
      PushAllKeepsPrefix(Pushed(q, capacity, xs[0]), capacity, xs[1..]);
      if |q.items| < capacity {
        OneMoreKept(q.items, xs, kept);
      } else {
        CounterAdd(q.overflow, 1, |xs| - 1);
        assert q.items + xs[1..][..0] == q.items + xs[..0];
      }
    }
  }

  lemma {:induction false} OneMoreKept<T>(items: seq<T>, xs: seq<T>, kept: nat)
    requires 0 < kept <= |xs|
    ensures items + [xs[0]] + xs[1..][..kept - 1] == items + xs[..kept]
  {
    assert xs[..kept] == [xs[0]] + xs[1..][..kept - 1];
  }

  lemma {:induction false} PushAllConcat<T>(q: Fifo<T>, capacity: nat, a: seq<T>, b: seq<T>)
    ensures PushAll(q, capacity, a + b) == PushAll(PushAll(q, capacity, a), capacity, b)
    decreases |a|
  {
    if a == [] {
      assert a + b == b;
    } else {
      assert (a + b)[1..] == a[1..] + b;
      PushAllConcat(Pushed(q, capacity, a[0]), capacity, a[1..], b);
    }
  }

  // ---------------------------------------------------------------- the circular array

  lemma {:induction false} WrapIndex(t: nat, n: nat)
    requires t < n
    ensures (t + 1) % n == if t + 1 == n then 0 else t + 1
  {
    if t + 1 < n {
      SmallMod(t + 1, n);
    }
  }

  lemma {:induction false} SmallMod(x: nat, n: nat)
    requires x < n
    ensures x % n == x
  {
  }

  class RingBuffer<T(0)> {
    const capacity: nat
    const buf: array<T>
    var head: nat
    var tail: nat
    var overflowCount: u32

    ghost predicate Valid()
      reads this, buf
    {
      buf.Length == capacity + 1 && head <= capacity && tail <= capacity
    }

    ghost function Value(): (q: Fifo<T>)
      requires Valid()
      reads this, buf
      ensures |q.items| <= capacity
    {
      Fifo(if head <= tail then buf[head..tail] else buf[head..] + buf[..tail], overflowCount)
    }

    constructor (capacity: nat)
      ensures Valid() && fresh(buf) && this.capacity == capacity && Value() == Fifo([], 0)
    {
      this.capacity := capacity;
      buf := new T[capacity + 1];
      head, tail, overflowCount := 0, 0, 0;
    }

    method Push(item: T) returns (ok: bool)
      requires Valid()
      modifies `tail, `overflowCount, buf
      ensures Valid() && Value() == Pushed(old(Value()), capacity, item)
      ensures ok == (|old(Value()).items| < capacity)
    {
      WrapIndex(tail, capacity + 1);
      var nextTail := (tail + 1) % (capacity + 1);
      if nextTail != head {
        buf[tail] := item;
        tail := nextTail;
        assert Value().items == old(Value()).items + [item];
        return true;
      }
      overflowCount := Bump(overflowCount);
      ok := false;
    }

    method Pop() returns (r: Option<T>)
      requires Valid()
      modifies `head
      ensures Valid()
      ensures old(Value()).items == [] ==> r == None && Value() == old(Value())
      ensures old(Value()).items != [] ==>
        r == Some(old(Value()).items[0]) && Value() == old(Value()).(items := old(Value()).items[1..])
    {
      if head == tail {
        return None;
      }
      r := Some(buf[head]);
      WrapIndex(head, capacity + 1);
      var nextHead := (head + 1) % (capacity + 1);
      head := nextHead;
      assert Value().items == old(Value()).items[1..];
    }

    method Size() returns (n: nat)
      requires Valid()
      ensures n == |Value().items|
    {
      if tail >= head {
        return tail - head;
      }
      n := capacity + 1 - (head - tail);
    }

    method IsFull() returns (full: bool)
      requires Valid()
      ensures full == (|Value().items| == capacity)
    {
      WrapIndex(tail, capacity + 1);
      full := (tail + 1) % (capacity + 1) == head;
    }

    method DrainOverflowCount() returns (n: u32)
      requires Valid()
      modifies `overflowCount
      ensures Valid() && n == old(overflowCount) && Value() == old(Value()).(overflow := 0)
    {
      n := overflowCount;
      overflowCount := 0;
    }
  }
}
