/**
 * The fixed-capacity sample ring buffer shared by the network loop
 * (producer side: batch pushes) and the playback callback (consumer side:
 * single pops). The two sides are modelled as sequential calls on one
 * object.
 */
module SampleQueue {
  import opened Wrappers

  /** Capacity of the ring buffer the bridge allocates: 16 * 1024 samples. */
  const RingCapacity: nat := 16 * 1024

  /** The queue after one push: the sample is appended when there is room and dropped otherwise. */
  function PushOne(q: seq<real>, x: real, capacity: nat): (r: seq<real>)
    requires |q| <= capacity
    ensures |r| <= capacity
  {
    if |q| < capacity then q + [x] else q
  }

  /**
   * The queue after a batch push: the longest prefix of the offered samples
   * that fits is appended in order; the rest is dropped.
   */
  function Offer(q: seq<real>, xs: seq<real>, capacity: nat): (r: seq<real>)
    requires |q| <= capacity
    ensures |q| <= |r| <= capacity
    ensures |r| - |q| <= |xs| && r == q + xs[..|r| - |q|]
    ensures |r| == capacity || |r| == |q| + |xs|
  {
    q + xs[..Min(|xs|, capacity - |q|)]
  }

  /** Offering the samples one at a time, as the producer's iterator does. */
  function OfferEach(q: seq<real>, xs: seq<real>, capacity: nat): (r: seq<real>)
    requires |q| <= capacity
    decreases |xs|
  {
    if xs == [] then q else OfferEach(PushOne(q, xs[0], capacity), xs[1..], capacity)
  }

  /** A batch push is the same as pushing each offered sample in turn. */
  lemma {:induction false} OfferIsOfferEach(q: seq<real>, xs: seq<real>, capacity: nat)
    requires |q| <= capacity
    ensures Offer(q, xs, capacity) == OfferEach(q, xs, capacity)
    decreases |xs|
  {
    if xs != [] {
      var q' := PushOne(q, xs[0], capacity);
      OfferIsOfferEach(q', xs[1..], capacity);
      if |q| < capacity {
        assert xs[..Min(|xs|, capacity - |q|)] == [xs[0]] + xs[1..][..Min(|xs| - 1, capacity - |q'|)];
      }
    }
  }

  /**
   * Two batch pushes in a row keep exactly what one push of both batches
   * keeps: once the buffer is full, every later sample is dropped.
   */
  lemma OfferConcat(q: seq<real>, xs: seq<real>, ys: seq<real>, capacity: nat)
    requires |q| <= capacity
    ensures Offer(Offer(q, xs, capacity), ys, capacity) == Offer(q, xs + ys, capacity)
  {
  }

  /** The value the callback writes into output slot i: the i-th buffered sample, or silence. */
  function SlotValue(q: seq<real>, i: nat): real {
    if i < |q| then q[i] else 0.0
  }

  /** The samples one callback block of n slots receives from queue q. */
  function Block(q: seq<real>, n: nat): (b: seq<real>)
    ensures |b| == n
    ensures forall i :: 0 <= i < n ==> b[i] == SlotValue(q, i)
  {
    seq(n, i requires 0 <= i < n => SlotValue(q, i))
  }

  /** Popping n times, each pop yielding the head or the default 0.0 once empty. */
  function PopEach(q: seq<real>, n: nat): (r: (seq<real>, seq<real>))
    decreases n
  {
    if n == 0 then ([], q)
    else if q == [] then
      var (b, rest) := PopEach(q, n - 1); ([0.0] + b, rest)
    else
      var (b, rest) := PopEach(q[1..], n - 1); ([q[0]] + b, rest)
  }

  /**
   * n single pops give the block of the first min(n, |q|) samples followed
   * by silence, and leave exactly the samples after them.
   */
  lemma {:induction false} PopEachIsBlock(q: seq<real>, n: nat)
    ensures PopEach(q, n) == (Block(q, n), q[Min(n, |q|)..])
    decreases n
  {
    if n > 0 {
      if q == [] {
        PopEachIsBlock(q, n - 1);
        assert Block(q, n) == [0.0] + Block(q, n - 1);
      } else {
        PopEachIsBlock(q[1..], n - 1);
        assert Block(q, n) == [q[0]] + Block(q[1..], n - 1);
        assert q[1..][Min(n - 1, |q| - 1)..] == q[Min(n, |q|)..];
      }
    }
  }

  /** The samples stored from index `head` up to `tail`, wrapping past the end of the slots. */
  function Window(slots: seq<real>, head: nat, tail: nat): (w: seq<real>)
    requires head < |slots| && tail < |slots|
    ensures |w| < |slots|
  {
    if head <= tail then slots[head..tail] else slots[head..] + slots[..tail]
  }

  /**
   * The buffer as the ring buffer library keeps it: one slot more than the
   * capacity, a read index `head` (next sample to pop) and a write index
   * `tail` (next slot to fill). The buffer is empty when the two indices
   * meet and full when the slot after `tail` is `head`.
   */
  class Queue {
    /** The buffered samples, oldest first. */
    ghost var Contents: seq<real>

    const capacity: nat
    const slots: array<real>
    var head: nat
    var tail: nat

    ghost predicate Valid()
      reads this, slots
    {
      slots.Length == capacity + 1 && head < slots.Length && tail < slots.Length &&
      Contents == Window(slots[..], head, tail)
    }

    /** The slot after `i`, wrapping to the first one. */
    function Next(i: nat): (j: nat)
      requires i < slots.Length
      ensures j < slots.Length
    {
      if i + 1 < slots.Length then i + 1 else 0
    }

    constructor (capacity: nat)
      ensures Valid() && fresh(slots)
      ensures this.capacity == capacity && Contents == []
    {
      this.capacity := capacity;
      slots := new real[capacity + 1];
      head, tail := 0, 0;
      Contents := [];
    }

    /** Appends one sample if there is room; a full buffer refuses it. */
    method Push(x: real) returns (pushed: bool)
      requires Valid()
      modifies this, slots
      ensures Valid()
      ensures pushed <==> |old(Contents)| < capacity
      ensures Contents == PushOne(old(Contents), x, capacity)
    {
      var following := Next(tail);
      pushed := following != head;
      if pushed {
        slots[tail] := x;
        tail := following;
        Contents := Contents + [x];
      }
    }

    /** Pushes samples in order until they run out or the buffer is full; returns how many it took. */
    method PushAll(xs: seq<real>) returns (n: nat)
      requires Valid()
      modifies this, slots
      ensures Valid()
      ensures Contents == Offer(old(Contents), xs, capacity)
      ensures n == |Contents| - |old(Contents)|
    {
      n := 0;
      while n < |xs|
        invariant Valid()
        invariant n <= |xs|
        invariant Contents == old(Contents) + xs[..n]
        decreases |xs| - n
      {
        var pushed := Push(xs[n]);
        if !pushed {
          break;
        }
        assert xs[..n + 1] == xs[..n] + [xs[n]];
        n := n + 1;
      }
    }

    /** Removes and returns the oldest sample; `None` when the buffer is empty. */
    method Pop() returns (x: Option<real>)
      requires Valid()
      modifies this
      ensures Valid()
      ensures old(Contents) == [] ==> x == None && Contents == []
      ensures old(Contents) != [] ==> x == Some(old(Contents)[0]) && Contents == old(Contents)[1..]
    {
      if head == tail {
        x := None;
      } else {
        x := Some(slots[head]);
        head := Next(head);
        Contents := Contents[1..];
      }
    }
  }
}
