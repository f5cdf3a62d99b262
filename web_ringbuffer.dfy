/**
 * The web front end's ring buffer of plotted values: a typed array of fixed
 * size, the index of the next slot to write and the number of values held.
 * Values are read oldest first through `real_index(i) = (head_i + i) %
 * length`.  The ghost `history` holds every value ever pushed, the ghost
 * `contents` the values held, oldest first.
 */
module WebRingBuffer {
  import opened Wrappers

  function Min(a: nat, b: nat): nat {
    if a < b then a else b
  }

  /** A remainder of at most twice the modulus, worked out. */
  lemma ModSmall(x: int, m: int)
    requires m > 0 && 0 <= x <= 2 * m
    ensures x % m == (if x < m then x else if x < 2 * m then x - m else 0)
  {
  }

  /** `x % m` for `x < 2 * m`, without the division. */
  function Wrap(x: nat, m: nat): nat {
    if x < m then x else x - m
  }

  /**
   * The slots `b` hold `contents`, oldest first, read through
   * `(head + i) % length` (a single wrap, as `head <= length`).
   */
  ghost predicate Layout(b: seq<int>, head: nat, length: nat, contents: seq<int>) {
    |contents| == length <= |b| && head <= length
    && forall i :: 0 <= i < length ==> b[Wrap(head + i, length)] == contents[i]
  }

  /** Before the buffer fills, slot `i` holds the `i`-th value, and a push fills the next slot. */
  lemma {:induction false} LayoutPushNotFull(b: seq<int>, n: nat, contents: seq<int>, item: int)
    requires Layout(b, n, n, contents) && n < |b|
    ensures Layout(b[n := item], Wrap(n + 1, |b|), n + 1, contents + [item])
  {
    var b' := b[n := item];
    var c' := contents + [item];
    forall i | 0 <= i < n + 1
      ensures b'[Wrap(Wrap(n + 1, |b|) + i, n + 1)] == c'[i]
    {
      if i < n {
        assert b[Wrap(n + i, n)] == contents[i];
      }
    }
  }

  /** Once full, a push overwrites the oldest value at `head` and the head moves on. */
  lemma {:induction false} LayoutPushFull(b: seq<int>, head: nat, contents: seq<int>, item: int)
    requires Layout(b, head, |b|, contents) && head < |b|
    ensures Layout(b[head := item], Wrap(head + 1, |b|), |b|, contents[1..] + [item])
  {
    var cap := |b|;
    var b' := b[head := item];
    var c' := contents[1..] + [item];
    forall i | 0 <= i < cap
      ensures b'[Wrap(Wrap(head + 1, cap) + i, cap)] == c'[i]
    {
      if i < cap - 1 {
        assert b[Wrap(head + (i + 1), cap)] == contents[i + 1];
      }
    }
  }

  /** A push into a full buffer keeps the held values the last `|b|` values pushed, laid out from the new head. */
  lemma FullPushKeepsLayout(b: seq<int>, head: nat, h: seq<int>, c: seq<int>, item: int)
    requires Layout(b, head, |b|, c) && head < |b| <= |h| && c == h[|h| - |b|..]
    ensures Layout(b[head := item], Wrap(head + 1, |b|), |b|, c[1..] + [item])
    ensures c[1..] + [item] == (h + [item])[|h + [item]| - |b|..]
  {
    LayoutPushFull(b, head, c, item);
    assert c[1..] == h[|h| - |b| + 1..];
  }

  /** JavaScript's `%`: the remainder takes the sign of the dividend (`-0` reads as index 0). */
  function JsRem(a: int, m: int): (r: int)
    requires m > 0
    ensures -m < r < m
    ensures a >= 0 ==> r == a % m
    ensures r < 0 ==> a < 0
  {
    if a >= 0 then a % m else -((-a) % m)
  }

  class RingBuffer {
    /** `#buffer`. */
    const buffer: array<int>
    /** `#head_i`: where the next value goes. */
    var headI: nat
    /** `#length`. */
    var length: nat
    ghost var history: seq<int>
    ghost var contents: seq<int>

    ghost predicate Valid()
      reads this, buffer
    {
      && buffer.Length > 0
      && headI < buffer.Length
      && length == Min(|history|, buffer.Length)
      && (length < buffer.Length ==> headI == length)
      && contents == history[|history| - length..]
      && Layout(buffer[..], headI, length, contents)
    }

    /** `real_index`. */
    function RealIndex(index: nat): (r: nat)
      reads this, buffer
      requires Valid() && length > 0
      ensures r < length
      ensures index < length ==> r == Wrap(headI + index, length)
      ensures index == length ==> r == Wrap(headI, length)
    {
      if index <= length then
        ModSmall(headI + index, length);
        (headI + index) % length
      else
        (headI + index) % length
    }

    /** `new RingBuffer(Class, size)`: a zeroed typed array of `size` slots and nothing held. */
    constructor (size: nat)
      requires size > 0
      ensures Valid() && buffer.Length == size && fresh(buffer)
      ensures history == [] && contents == [] && length == 0
    {
      buffer := new int[size](_ => 0);
      headI := 0;
      length := 0;
      history := [];
      contents := [];
    }

    /**
     * `push`: the value goes at `head_i`, `head_i` moves on modulo the
     * size, and `length` grows by one until the buffer is full; a full
     * buffer loses its oldest value.
     */
    method Push(item: int)
      requires Valid()
      modifies this, buffer
      ensures Valid()
      ensures history == old(history) + [item]
      ensures length == Min(buffer.Length, old(length) + 1)
      ensures old(length) < buffer.Length ==> contents == old(contents) + [item]
      ensures old(length) == buffer.Length ==> contents == old(contents)[1..] + [item]
    {
      if length < buffer.Length {
        PushNotFull(item);
      } else {
        PushFull(item);
      }
    }

    method PushNotFull(item: int)
      requires Valid() && length < buffer.Length
      modifies this, buffer
      ensures Valid()
      ensures history == old(history) + [item] && length == old(length) + 1
      ensures contents == old(contents) + [item]
    {
      LayoutPushNotFull(buffer[..], length, contents, item);
      ModSmall(headI + 1, buffer.Length);
      ghost var b := buffer[..];
      buffer[headI] := item;
      assert buffer[..] == b[length := item];
      headI := (headI + 1) % buffer.Length;
      length := length + 1;
      history := history + [item];
      contents := contents + [item];
    }

    method PushFull(item: int)
      requires Valid() && length == buffer.Length
      modifies this, buffer
      ensures Valid()
      ensures history == old(history) + [item] && length == old(length)
      ensures contents == old(contents)[1..] + [item]
    {
      ghost var b, h, c, head := buffer[..], history, contents, headI;
      FullPushKeepsLayout(b, head, h, c, item);
      ModSmall(head + 1, |b|);
      buffer[headI] := item;
      assert buffer[..] == b[head := item];
      headI := (headI + 1) % buffer.Length;
      history := h + [item];
      contents := c[1..] + [item];
      assert headI == Wrap(head + 1, |b|) && length == |b|;
      assert Layout(buffer[..], headI, length, contents);
    }

    /** The `length` getter. */
    method Length() returns (n: nat)
      requires Valid()
      ensures n == |contents| && n <= buffer.Length
      ensures n == Min(|history|, buffer.Length)
    {
      n := length;
    }

    /** The iterator: `length` values through `real_index`, oldest first. */
    method Iterate() returns (items: seq<int>)
      requires Valid()
      ensures items == contents
      ensures items == history[|history| - Min(|history|, buffer.Length)..]
    {
      items := [];
      for i := 0 to length
        invariant items == contents[..i]
      {
        assert buffer[..][Wrap(headI + i, length)] == contents[i];
        items := items + [buffer[RealIndex(i)]];
      }
    }

    /** Every occupied slot holds a value of `contents`. */
    lemma SlotHeld(r: nat)
      requires Valid() && r < length
      ensures buffer[r] in contents
    {
      var k := if r >= headI then r - headI else r + length - headI;
      assert buffer[..][Wrap(headI + k, length)] == contents[k];
    }

    /**
     * `at` as written: only `index > length` is turned away, so `at(length)`
     * reads `real_index(length)`, the oldest value, where `undefined` was
     * meant.  A negative index reads wherever JavaScript's `%` lands; a
     * negative slot reads `undefined`, as does anything on an empty buffer.
     */
    method At(index: int) returns (r: Option<int>)
      requires Valid()
      ensures index > length || length == 0 ==> r.None?
      ensures 0 <= index < length ==> r == Some(contents[index])
      ensures 0 < length == index ==> r == Some(contents[0])
      ensures r.Some? ==> r.value in contents
      ensures index < 0 && 0 < length ==>
        r == (if JsRem(headI + index, length) < 0 then None else Some(buffer[JsRem(headI + index, length)]))
    {
      if index > length || length == 0 {
        return None;
      }
      var slot;
      if index >= 0 {
        slot := RealIndex(index);
        if index < length {
          assert buffer[..][Wrap(headI + index, length)] == contents[index];
        } else {
          assert buffer[..][Wrap(headI + 0, length)] == contents[0];
        }
      } else {
        slot := JsRem(headI + index, length);
        if slot < 0 {
          return None;
        }
      }
      SlotHeld(slot);
      r := Some(buffer[slot]);
    }

    /** `at` with the bound the surrounding code expects: `index >= length` reads `undefined`. */
    method AtCorrected(index: int) returns (r: Option<int>)
      requires Valid()
      ensures index >= length ==> r.None?
      ensures 0 <= index < length ==> r == Some(contents[index])
      ensures r.Some? ==> r.value in contents
      ensures index < 0 && 0 < length ==>
        r == (if JsRem(headI + index, length) < 0 then None else Some(buffer[JsRem(headI + index, length)]))
    {
      if index >= length || length == 0 {
        return None;
      }
      var slot;
      if index >= 0 {
        slot := RealIndex(index);
        assert buffer[..][Wrap(headI + index, length)] == contents[index];
      } else {
        slot := JsRem(headI + index, length);
        if slot < 0 {
          return None;
        }
      }
      SlotHeld(slot);
      r := Some(buffer[slot]);
    }
  }

  /** Pushing `xs` keeps the last values, at most the buffer's size of them, in push order. */
  method PushAll(rb: RingBuffer, xs: seq<int>) returns (items: seq<int>)
    requires rb.Valid()
    modifies rb, rb.buffer
    ensures rb.Valid() && rb.history == old(rb.history) + xs
    ensures items == rb.history[|rb.history| - Min(|rb.history|, rb.buffer.Length)..]
    ensures |xs| >= rb.buffer.Length ==> items == xs[|xs| - rb.buffer.Length..]
  {
    ghost var h0 := rb.history;
    PushEach(rb, xs);
    items := rb.Iterate();
    if |xs| >= rb.buffer.Length {
      TailOfAppend(h0, xs, rb.buffer.Length);
    }
  }

  /** `push` for each value in turn. */
  method PushEach(rb: RingBuffer, xs: seq<int>)
    requires rb.Valid()
    modifies rb, rb.buffer
    ensures rb.Valid() && rb.history == old(rb.history) + xs
  {
    ghost var h0 := rb.history;
    for k := 0 to |xs|
      invariant rb.Valid() && rb.history == h0 + xs[..k]
    {
      rb.Push(xs[k]);
      assert xs[..k + 1] == xs[..k] + [xs[k]];
    }
    assert xs[..|xs|] == xs;
  }

  /** The last `n` values of `a + b` are the last `n` of `b` when `b` has that many. */
  lemma TailOfAppend(a: seq<int>, b: seq<int>, n: nat)
    requires n <= |b|
    ensures (a + b)[|a + b| - n..] == b[|b| - n..]
  {
    var l, r := (a + b)[|a + b| - n..], b[|b| - n..];
    assert forall j :: 0 <= j < n ==> l[j] == r[j];
  }

  /** A buffer of two slots with 7 pushed into it. */
  method HoldingSeven() returns (rb: RingBuffer)
    ensures rb.Valid() && rb.length == 1 && rb.contents == [7]
  {
    rb := new RingBuffer(2);
    rb.Push(7);
  }

  /** On a buffer of two holding only 7, `at(1)` as written yields 7; the corrected bound yields nothing. */
  method AtLengthReadsOldest() returns (asWritten: Option<int>, corrected: Option<int>)
    ensures asWritten == Some(7) && corrected == None
  {
    var rb := HoldingSeven();
    asWritten := rb.At(1);
    corrected := rb.AtCorrected(1);
  }
}
