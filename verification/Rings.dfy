/** A circular buffer in which a sentinel value marks the free slots. */
module Rings {
  import opened CoreTypes

  /** Numbers below `empty` in a ring; `empty` itself marks a free slot. */
  class SentinelRing {
    const slot: array<nat>
    const empty: nat
    var head: nat
    var tail: nat
    ghost var queue: seq<nat>

    ghost predicate Valid()
      reads this, slot
    {
      && head < slot.Length && |queue| <= slot.Length
      && tail == At(head, slot.Length, if |queue| == slot.Length then 0 else |queue|)
      && (forall k :: 0 <= k < |queue| ==> queue[k] < empty)
      && forall i :: 0 <= i < slot.Length ==>
           slot[i] == if Age(head, slot.Length, i) < |queue| then queue[Age(head, slot.Length, i)] else empty
    }

    constructor (size: nat, empty: nat)
      requires size > 0
      ensures Valid() && queue == [] && slot.Length == size && this.empty == empty && fresh(slot)
    {
      slot := new nat[size](_ => empty);
      this.empty := empty;
      head, tail, queue := 0, 0, [];
    }

    /** The slot written is free, which the simulator asserts. */
    method Add(x: nat)
      requires Valid() && |queue| < slot.Length && x < empty
      modifies this, slot
      ensures Valid() && queue == old(queue) + [x]
    {
      assert slot[tail] == empty;
      slot[tail] := x;
      tail := tail + 1;
      if tail == slot.Length { tail := 0; }
      queue := queue + [x];
    }

    /** The oldest number, or the sentinel when the ring is empty. */
    method First() returns (x: nat)
      requires Valid()
      ensures x == if queue == [] then empty else queue[0]
    {
      x := slot[head];
    }

    method Remove()
      requires Valid() && queue != []
      modifies this, slot
      ensures Valid() && queue == old(queue)[1..]
    {
      slot[head] := empty;
      head := head + 1;
      if head == slot.Length { head := 0; }
      queue := queue[1..];
    }
  }
}
