/**
 * The revolution buffer of the Linux controller, as written: `push`
 * pre-increments `tail` and never wraps, so it stays inside the array only
 * while `tail + 1 < length`.
 */
module PiRingBuffer {
  import Revolutions

  class RingBuffer {
    var length: nat
    var tail: nat
    var slots: array<nat>   // `array`

    ghost predicate Valid()
      reads this
    {
      slots.Length == length && (tail < length || tail == 0)
    }

    /** `ringbuffer_alloc`: `length` zero bins and `tail = 0` (the allocation is assumed to succeed). */
    constructor Alloc(length: nat)
      ensures Valid() && fresh(slots)
      ensures this.length == length && tail == 0
      ensures slots[..] == Revolutions.Zeros(length)
    {
      this.length := length;
      tail := 0;
      slots := new nat[length](_ => 0);
      new;
      assert slots[..] == Revolutions.Zeros(length);
    }

    /** `ringbuffer_back`: the bin at `tail`. */
    function Back(): (r: nat)
      requires Valid() && length > 0
      reads this, slots
      ensures r == slots[..][tail]
    {
      slots[tail]
    }

    /**
     * `ringbuffer_push`: `array[++tail] = value`.  The write is in bounds
     * only under `PushInBounds`; apart from that slot and `tail` nothing
     * changes.
     */
    method Push(value: nat)
      requires Valid() && PushInBounds(tail, length)
      modifies this, slots
      ensures Valid() && length == old(length) && slots == old(slots)
      ensures tail == old(tail) + 1
      ensures slots[..] == old(slots[..])[tail := value]
    {
      tail := tail + 1;
      slots[tail] := value;
    }

    /** `k` pushes in a row, as the controller performs one per IO tick. */
    method PushMany(k: nat)
      requires Valid() && tail + k < length
      modifies this, slots
      ensures Valid() && length == old(length) && slots == old(slots)
      ensures tail == old(tail) + k
    {
      for j := 0 to k
        invariant Valid() && length == old(length) && slots == old(slots)
        invariant tail == old(tail) + j
      {
        Push(0);
      }
    }
  }

  /** The index `tail + 1` that `push` writes lies inside an array of `length` bins. */
  predicate PushInBounds(tail: nat, length: nat) {
    tail + 1 < length
  }

  /**
   * From a fresh buffer exactly `length - 1` pushes stay in bounds: after
   * them `tail` is `length - 1`, and the next push would write
   * `array[length]`, one past the end.
   */
  method FreshBufferOverflowsAtLengthThPush(length: nat) returns (tail: nat)
    requires length > 0
    ensures tail == length - 1 && !PushInBounds(tail, length)
  {
    var b := new RingBuffer.Alloc(length);
    b.PushMany(length - 1);
    tail := b.tail;
  }
}
