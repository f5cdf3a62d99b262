/**
 * The typed register banks of the network-connected PID controller: two
 * input registers (telemetry) and four holding registers (parameters), each
 * holding one float, read and written by ranges of register names.
 */
module PidRegisters {
  import opened Wrappers
  import opened Float32

  datatype InputRegister = Frequency | ControlSignal

  datatype HoldingRegister = TargetFrequency | ProportionalFactor | IntegrationTime | DifferentiationTime

  const InputCount: nat := 2
  const HoldingCount: nat := 4

  /** `to_usize` of an input register: its declaration ordinal. */
  function InputOrdinal(r: InputRegister): (n: nat)
    ensures n < InputCount
  {
    match r
    case Frequency => 0
    case ControlSignal => 1
  }

  function HoldingOrdinal(r: HoldingRegister): (n: nat)
    ensures n < HoldingCount
  {
    match r
    case TargetFrequency => 0
    case ProportionalFactor => 1
    case IntegrationTime => 2
    case DifferentiationTime => 3
  }

  /** `from_u16` of an input register: the variant with that ordinal, if any. */
  function InputFromU16(n: nat): (r: Option<InputRegister>)
    ensures r.Some? <==> n < InputCount
    ensures r.Some? ==> InputOrdinal(r.value) == n
  {
    if n == 0 then Some(Frequency) else if n == 1 then Some(ControlSignal) else None
  }

  function HoldingFromU16(n: nat): (r: Option<HoldingRegister>)
    ensures r.Some? <==> n < HoldingCount
    ensures r.Some? ==> HoldingOrdinal(r.value) == n
  {
    if n == 0 then Some(TargetFrequency)
    else if n == 1 then Some(ProportionalFactor)
    else if n == 2 then Some(IntegrationTime)
    else if n == 3 then Some(DifferentiationTime)
    else None
  }

  /** Ordinals and `from_u16` are inverse, so each variant has its own slot. */
  lemma OrdinalsAreSlots(i: InputRegister, h: HoldingRegister)
    ensures InputFromU16(InputOrdinal(i)) == Some(i)
    ensures HoldingFromU16(HoldingOrdinal(h)) == Some(h)
  {
  }

  datatype Bound<T> = Included(at: T) | Excluded(at: T) | Unbounded

  /** A range given by its two bounds, as `IntoBounds` yields it. */
  datatype Range<T> = Range(start: Bound<T>, end: Bound<T>)

  function MapBound<T>(b: Bound<T>, ord: T -> nat): (r: Bound<nat>)
    ensures r.Included? == b.Included? && r.Excluded? == b.Excluded?
    ensures !b.Unbounded? ==> r.at == ord(b.at)
  {
    match b
    case Included(x) => Included(ord(x))
    case Excluded(x) => Excluded(ord(x))
    case Unbounded => Unbounded
  }

  /** `into_usize_bounds`: each bound keeps its kind and names its ordinal. */
  function IntoUsizeBounds<T>(range: Range<T>, ord: T -> nat): (r: Range<nat>)
    ensures r.start == MapBound(range.start, ord) && r.end == MapBound(range.end, ord)
  {
    Range(MapBound(range.start, ord), MapBound(range.end, ord))
  }

  /** The half-open slot interval a range selects in a slice of length `len`. */
  function SliceStart(b: Bound<nat>): nat {
    match b
    case Included(x) => x
    case Excluded(x) => x + 1
    case Unbounded => 0
  }

  function SliceEnd(b: Bound<nat>, len: nat): nat {
    match b
    case Included(x) => x + 1
    case Excluded(x) => x
    case Unbounded => len
  }

  /** Slicing panics unless `start <= end <= len`. */
  predicate InSlice(r: Range<nat>, len: nat) {
    SliceStart(r.start) <= SliceEnd(r.end, len) <= len
  }

  /**
   * The registers a write selects, after a write of `values` to slots
   * `[lo, hi)`: the first `min(hi - lo, |values|)` slots take the values in
   * order, everything else keeps its old value.
   */
  ghost function Overwrite(s: seq<F32>, lo: nat, hi: nat, values: seq<F32>): (r: seq<F32>)
    requires lo <= hi <= |s|
    ensures |r| == |s|
  {
    seq(|s|, i requires 0 <= i < |s| => if lo <= i < hi && i - lo < |values| then values[i - lo] else s[i])
  }

  /** Reading back a range that was written with enough values returns them. */
  lemma ReadAfterWrite(s: seq<F32>, lo: nat, hi: nat, values: seq<F32>)
    requires lo <= hi <= |s| && |values| >= hi - lo
    ensures Overwrite(s, lo, hi, values)[lo..hi] == values[..hi - lo]
    ensures Overwrite(s, lo, hi, values)[..lo] == s[..lo]
    ensures Overwrite(s, lo, hi, values)[hi..] == s[hi..]
  {
  }

  /** With too few values, the surplus slots of the range keep their contents. */
  lemma ShortWriteKeepsRest(s: seq<F32>, lo: nat, hi: nat, values: seq<F32>)
    requires lo <= hi <= |s| && |values| < hi - lo
    ensures Overwrite(s, lo, hi, values)[lo..lo + |values|] == values
    ensures Overwrite(s, lo, hi, values)[lo + |values|..] == s[lo + |values|..]
  {
  }

  /**
   * `addr + count - 1` in `u16` with release-build wrap-around; it is the
   * plain value whenever that lies in `u16`.
   */
  function WrappingEnd(addr: nat, count: nat): (e: nat)
    ensures e < 0x1_0000
    ensures 1 <= addr + count <= 0x1_0000 ==> e == addr + count - 1
    ensures addr + count == 0 ==> e == 0xFFFF
  {
    (addr + count + 0xFFFF) % 0x1_0000
  }

  /**
   * `range_from_addr_count`: the inclusive range from `addr` to
   * `addr + count - 1` when both ends name a variant, the end computed in
   * `u16`.
   */
  function RangeFromAddrCount<T>(addr: nat, count: nat, fromU16: nat -> Option<T>): (r: Option<Range<T>>)
    requires addr < 0x1_0000 && count < 0x1_0000
    ensures r.Some? <==> fromU16(addr).Some? && fromU16(WrappingEnd(addr, count)).Some?
    ensures r.Some? ==> r.value == Range(Included(fromU16(addr).value), Included(fromU16(WrappingEnd(addr, count)).value))
  {
    match fromU16(addr)
    case None => None
    case Some(start) =>
      match fromU16(WrappingEnd(addr, count))
      case None => None
      case Some(end) => Some(Range(Included(start), Included(end)))
  }

  /**
   * A Modbus-style request for `count >= 1` holding registers from `addr`
   * is accepted exactly when it stays inside the bank, and then selects the
   * `count` slots starting at `addr`.
   */
  lemma HoldingRangeSelects(addr: nat, count: nat)
    requires addr < 0x1_0000 && 1 <= count < 0x1_0000 && addr + count <= 0x1_0000
    ensures var r := RangeFromAddrCount(addr, count, HoldingFromU16);
      && (r.Some? <==> addr + count <= HoldingCount)
      && (r.Some? ==> var u := IntoUsizeBounds(r.value, HoldingOrdinal);
            InSlice(u, HoldingCount) && SliceStart(u.start) == addr && SliceEnd(u.end, HoldingCount) == addr + count)
  {
    var r := RangeFromAddrCount(addr, count, HoldingFromU16);
    if r.Some? {
      assert HoldingOrdinal(HoldingFromU16(addr).value) == addr;
      assert HoldingOrdinal(HoldingFromU16(addr + count - 1).value) == addr + count - 1;
    }
  }

  /** The full range `..` selects the whole bank. */
  lemma FullRangeSelectsAll<T>(ord: T -> nat, len: nat)
    ensures var u := IntoUsizeBounds(Range(Unbounded, Unbounded), ord);
      InSlice(u, len) && SliceStart(u.start) == 0 && SliceEnd(u.end, len) == len
  {
  }

  /**
   * A request whose end wraps below its start yields a reversed range: three
   * holding registers from address 3 with `count = 0xFFFF` end at address 1,
   * and slicing `3..2` panics.
   */
  lemma WrappedRequestIsReversed()
    ensures var r := RangeFromAddrCount(3, 0xFFFF, HoldingFromU16);
      && r == Some(Range(Included(DifferentiationTime), Included(ProportionalFactor)))
      && !InSlice(IntoUsizeBounds(r.value, HoldingOrdinal), HoldingCount)
  {
    assert WrappingEnd(3, 0xFFFF) == 1;
  }

  class Registers {
    var input: array<F32>
    var holding: array<F32>

    ghost predicate Valid()
      reads this
    {
      input.Length == InputCount && holding.Length == HoldingCount && input != holding
    }

    /** `new`: inputs are zero; holdings are zero except an infinite integration time. */
    constructor ()
      ensures Valid() && fresh(input) && fresh(holding)
      ensures input[..] == [Fin(0.0), Fin(0.0)]
      ensures holding[..] == [Fin(0.0), Fin(0.0), PosInf, Fin(0.0)]
      ensures holding[HoldingOrdinal(IntegrationTime)] == PosInf
    {
      input := new F32[2](_ => Fin(0.0));
      holding := new F32[4](i => if i == 2 then PosInf else Fin(0.0));
      new;
      assert input[..] == [Fin(0.0), Fin(0.0)];
      assert holding[..] == [Fin(0.0), Fin(0.0), PosInf, Fin(0.0)];
    }

    /**
     * `&self.input[..]` of the range's slots; `None` is the slice panic of a
     * range that is reversed or runs past the bank.
     */
    method ReadInputRegisters(range: Range<InputRegister>) returns (r: Option<seq<F32>>)
      requires Valid()
      ensures var u := IntoUsizeBounds(range, InputOrdinal);
        && (r.Some? <==> InSlice(u, InputCount))
        && (r.Some? ==> r.value == input[SliceStart(u.start)..SliceEnd(u.end, InputCount)])
    {
      var u := IntoUsizeBounds(range, InputOrdinal);
      if !InSlice(u, InputCount) {
        return None;
      }
      r := Some(input[SliceStart(u.start)..SliceEnd(u.end, InputCount)]);
    }

    method ReadHoldingRegisters(range: Range<HoldingRegister>) returns (r: Option<seq<F32>>)
      requires Valid()
      ensures var u := IntoUsizeBounds(range, HoldingOrdinal);
        && (r.Some? <==> InSlice(u, HoldingCount))
        && (r.Some? ==> r.value == holding[SliceStart(u.start)..SliceEnd(u.end, HoldingCount)])
    {
      var u := IntoUsizeBounds(range, HoldingOrdinal);
      if !InSlice(u, HoldingCount) {
        return None;
      }
      r := Some(holding[SliceStart(u.start)..SliceEnd(u.end, HoldingCount)]);
    }

    /**
     * The zipped write into the range's slots; `ok` is false exactly on the
     * slice panic, and then nothing is written.
     */
    method WriteInputRegisters(range: Range<InputRegister>, values: seq<F32>) returns (ok: bool)
      requires Valid()
      modifies input
      ensures Valid()
      ensures var u := IntoUsizeBounds(range, InputOrdinal);
        && (ok <==> InSlice(u, InputCount))
        && (ok ==> input[..] == Overwrite(old(input[..]), SliceStart(u.start), SliceEnd(u.end, InputCount), values))
        && (!ok ==> input[..] == old(input[..]))
    {
      var u := IntoUsizeBounds(range, InputOrdinal);
      if !InSlice(u, InputCount) {
        return false;
      }
      Assign(input, SliceStart(u.start), SliceEnd(u.end, InputCount), values);
      ok := true;
    }

    method WriteHoldingRegisters(range: Range<HoldingRegister>, values: seq<F32>) returns (ok: bool)
      requires Valid()
      modifies holding
      ensures Valid()
      ensures var u := IntoUsizeBounds(range, HoldingOrdinal);
        && (ok <==> InSlice(u, HoldingCount))
        && (ok ==> holding[..] == Overwrite(old(holding[..]), SliceStart(u.start), SliceEnd(u.end, HoldingCount), values))
        && (!ok ==> holding[..] == old(holding[..]))
    {
      var u := IntoUsizeBounds(range, HoldingOrdinal);
      if !InSlice(u, HoldingCount) {
        return false;
      }
      Assign(holding, SliceStart(u.start), SliceEnd(u.end, HoldingCount), values);
      ok := true;
    }
  }

  /** `iter_mut().zip(values).for_each(..)` over the slots `[lo, hi)` of `a`. */
  method Assign(a: array<F32>, lo: nat, hi: nat, values: seq<F32>)
    requires lo <= hi <= a.Length
    modifies a
    ensures a[..] == Overwrite(old(a[..]), lo, hi, values)
  {
    var n := if hi - lo < |values| then hi - lo else |values|;
    for k := 0 to n
      invariant forall i :: 0 <= i < a.Length ==>
        a[i] == if lo <= i < lo + k then values[i - lo] else old(a[i])
    {
      a[lo + k] := values[k];
    }
    assert a[..] == Overwrite(old(a[..]), lo, hi, values);
  }
}
