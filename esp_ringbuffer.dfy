/**
 * The revolution ring buffer of the ESP32 firmware: a fixed array of
 * `length` bins and the index `tail` of the newest one.  A push advances
 * `tail` modulo `length` and overwrites the oldest bin there.
 */
module EspRingBuffer {
  import opened Wrappers
  import Revolutions

  const EspOk: int := 0
  const EspErrInvalidState: int := 0x103

  /** `x mod length` for `x < 2 * length`, the only case the buffer needs. */
  function Wrap(x: nat, length: nat): (r: nat)
    requires x < 2 * length
    ensures r < length && r == x % length
  {
    if x < length then x else x - length
  }

  /** The bins of `a` oldest first when `t` is the newest: `t + 1`, ..., `t` modulo `|a|`. */
  function WindowOf(a: seq<nat>, t: nat): (w: seq<nat>)
    requires t < |a| || t == 0
    ensures |w| == |a|
  {
    seq(|a|, i requires 0 <= i < |a| => a[Wrap(t + 1 + i, |a|)])
  }

  /** The newest bin closes the window, and the oldest is the slot after `t`. */
  lemma WindowEnds(a: seq<nat>, t: nat)
    requires t < |a|
    ensures WindowOf(a, t)[|a| - 1] == a[t]
    ensures WindowOf(a, t)[0] == a[Wrap(t + 1, |a|)]
  {
    assert Wrap(t + 1 + (|a| - 1), |a|) == t;
  }

  /**
   * Overwriting the slot after `t` and making it the newest drops the oldest
   * bin from the window and appends the new value.
   */
  lemma WindowAfterPush(a: seq<nat>, t: nat, value: nat)
    requires t < |a|
    ensures WindowOf(a[Wrap(t + 1, |a|) := value], Wrap(t + 1, |a|)) == WindowOf(a, t)[1..] + [value]
  {
    var n := |a|;
    var t' := Wrap(t + 1, n);
    var a' := a[t' := value];
    var after, expected := WindowOf(a', t'), WindowOf(a, t)[1..] + [value];
    forall i | 0 <= i < n
      ensures after[i] == expected[i]
    {
      if i < n - 1 {
        assert Wrap(t' + 1 + i, n) == Wrap(t + 1 + (i + 1), n);
        assert Wrap(t' + 1 + i, n) != t';
      } else {
        assert Wrap(t' + 1 + i, n) == t';
      }
    }
  }

  /** Incrementing the newest slot increments the last bin of the window and nothing else. */
  lemma WindowAfterIncrement(a: seq<nat>, t: nat)
    requires t < |a|
    ensures WindowOf(a[t := a[t] + 1], t) == WindowOf(a, t)[|a| - 1 := a[t] + 1]
  {
    var n := |a|;
    var after, expected := WindowOf(a[t := a[t] + 1], t), WindowOf(a, t)[n - 1 := a[t] + 1];
    forall i | 0 <= i < n
      ensures after[i] == expected[i]
    {
      if i < n - 1 {
        assert Wrap(t + 1 + i, n) != t;
      } else {
        assert Wrap(t + 1 + i, n) == t;
      }
    }
  }

  class RingBuffer {
    var length: nat
    var tail: nat
    var slots: array<nat>   // `array`

    ghost predicate Valid()
      reads this
    {
      slots.Length == length && (tail < length || tail == 0)
    }

    /**
     * The bins oldest first: `tail + 1`, `tail + 2`, ... modulo `length`,
     * ending with the newest bin `tail`.
     */
    ghost function Window(): (w: seq<nat>)
      requires Valid()
      reads this, slots
      ensures |w| == length
    {
      WindowOf(slots[..], tail)
    }

    constructor Zeroed(length: nat)
      ensures Valid() && fresh(slots)
      ensures this.length == length && tail == 0
      ensures slots[..] == Revolutions.Zeros(length)
    {
      this.length := length;
      tail := 0;
      slots := new nat[length](_ => 0);
      new;
      assert slots[..] == Revolutions.Zeros(length);
    }

    /** `ringbuffer_back`: the newest bin is the one at `tail`. */
    function Back(): (r: nat)
      requires Valid() && length > 0
      reads this, slots
      ensures r == Window()[length - 1]
    {
      WindowEnds(slots[..], tail);
      slots[tail]
    }

    /** `*ringbuffer_back(self) += 1`: one more revolution in the newest bin. */
    method IncrementBack()
      requires Valid() && length > 0
      modifies slots
      ensures Valid()
      ensures slots[..] == old(slots[..])[tail := old(slots[tail]) + 1]
      ensures Window() == old(Window())[length - 1 := old(Back()) + 1]
      ensures Revolutions.Sum(slots[..]) == Revolutions.Sum(old(slots[..])) + 1
    {
      Revolutions.SumUpdate(slots[..], tail, slots[tail] + 1);
      WindowAfterIncrement(slots[..], tail);
      slots[tail] := slots[tail] + 1;
    }

    /**
     * `ringbuffer_push`: `tail` moves on modulo `length` and the value
     * replaces the oldest bin there; `length` and every other bin stay.
     */
    method Push(value: nat)
      requires Valid() && length > 0
      modifies this, slots
      ensures Valid() && length == old(length) && slots == old(slots)
      ensures tail == (old(tail) + 1) % length
      ensures slots[..] == old(slots[..])[tail := value]
      ensures Window() == old(Window())[1..] + [value]
      ensures Revolutions.Sum(slots[..]) == Revolutions.Sum(old(slots[..])) - old(Window())[0] + value
    {
      var next := Wrap(tail + 1, length);
      Revolutions.SumUpdate(slots[..], next, value);
      WindowAfterPush(slots[..], tail, value);
      WindowEnds(slots[..], tail);
      tail := next;
      slots[tail] := value;
    }
  }

  /**
   * `ringbuffer_init`: a zeroed buffer of `length` bins with `tail = 0`; when
   * the allocation fails the caller's pointer `slot` is left as it was.
   */
  method Init(slot: Option<RingBuffer>, length: nat, mallocOk: bool)
    returns (status: int, result: Option<RingBuffer>)
    ensures !mallocOk ==> status == EspErrInvalidState && result == slot
    ensures mallocOk ==>
      && status == EspOk && result.Some? && fresh(result.value) && fresh(result.value.slots)
      && result.value.Valid() && result.value.length == length && result.value.tail == 0
      && result.value.slots[..] == Revolutions.Zeros(length)
  {
    if !mallocOk {
      return EspErrInvalidState, slot;
    }
    var me := new RingBuffer.Zeroed(length);
    return EspOk, Some(me);
  }
}
