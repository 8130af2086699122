/** A ring buffer over a fixed array, and the byte queue it implements. */
module RingBuffer {
  import opened Basics

  type byte = b: int | 0 <= b < 256

  lemma ModOnce(x: nat, c: nat)
    requires x < 2 * c
    ensures x % c == if x < c then x else x - c
  {
  }

  /** `i` places after `head`, around the end of the array. */
  function Place(cap: nat, head: nat, i: nat): nat {
    if head + i < cap then head + i else head + i - cap
  }

  /** The bytes in the queue, oldest first. */
  ghost function Queue(d: seq<byte>, head: nat, size: nat): (q: seq<byte>)
    requires head < |d| && size <= |d|
    ensures |q| == size
  {
    seq(size, (i: nat) requires i < size => d[Place(|d|, head, i)])
  }

  lemma Pushed(d: seq<byte>, e: seq<byte>, head: nat, size: nat, target: seq<byte>)
    requires |d| == |e| && head < |d| && size + |target| <= |d|
    requires forall i: nat :: i < size ==> e[Place(|d|, head, i)] == d[Place(|d|, head, i)]
    requires forall i: nat :: i < |target| ==> e[Place(|d|, Place(|d|, head, size), i)] == target[i]
    ensures Queue(e, head, size + |target|) == Queue(d, head, size) + target
  {
  }

  lemma Popped(d: seq<byte>, head: nat, size: nat, n: nat)
    requires head < |d| && size <= |d| && n <= size
    ensures Place(|d|, head, n) < |d|
    ensures Queue(d, head, size) == Queue(d, head, n) + Queue(d, Place(|d|, head, n), size - n)
  {
  }

  class Ring {
    const data: array<byte>
    var size: nat
    var head: nat
    var nextPos: nat

    ghost predicate Valid()
      reads this
    {
      head < data.Length && size <= data.Length && nextPos == Place(data.Length, head, size) < data.Length
    }

    ghost function Contents(): (q: seq<byte>)
      requires Valid()
      reads this, data
      ensures |q| == size
    {
      Queue(data[..], head, size)
    }

    /** `ring_buffer_pos_init` on a buffer of the given size */
    constructor (capacity: nat)
      requires capacity > 0
      ensures Valid() && fresh(data) && data.Length == capacity && Contents() == []
    {
      data := new byte[capacity];
      size, head, nextPos := 0, 0, 0;
    }

    /** `ring_buffer_pos_push_back`: append what fits. */
    method PushBack(target: seq<byte>) returns (n: nat)
      requires Valid()
      modifies this, data
      ensures Valid()
      ensures n == Min(|target|, data.Length - old(size))
      ensures Contents() == old(Contents()) + target[..n]
    {
      n := |target|;
      if size + n > data.Length { n := data.Length - size; }
      CopyIn(target[..n]);
      ModOnce(nextPos + n, data.Length);
      nextPos := (nextPos + n) % data.Length;
      size := size + n;
    }

    /** The two copies into the array: up to its end, then from its start. */
    method CopyIn(target: seq<byte>)
      requires Valid() && size + |target| <= data.Length
      modifies data
      ensures Queue(data[..], head, size + |target|) == old(Contents()) + target
    {
      var first := Min(|target|, data.Length - nextPos);
      var second := |target| - first;
      forall i | 0 <= i < first { data[nextPos + i] := target[i]; }
      forall i | 0 <= i < second { data[i] := target[first + i]; }
      Pushed(old(data[..]), data[..], head, size, target);
    }

    /** The two copies out of the array. */
    method CopyOut(n: nat) returns (target: seq<byte>)
      requires Valid() && n <= size
      ensures target == Queue(data[..], head, n)
    {
      var first := Min(n, data.Length - head);
      var second := n - first;
      target := data[head..head + first] + data[..second];
    }

    /** `ring_buffer_pos_pop_front`: remove up to `want` bytes. */
    method PopFront(want: nat) returns (target: seq<byte>)
      requires Valid()
      modifies this
      ensures Valid()
      ensures |target| == Min(want, old(size))
      ensures old(Contents()) == target + Contents()
    {
      var n := want;
      if n > size { n := size; }
      target := CopyOut(n);
      Popped(data[..], head, size, n);
      ModOnce(head + n, data.Length);
      head := (head + n) % data.Length;
      size := size - n;
    }
  }
}
