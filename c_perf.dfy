/**
 * The C performance counter of the Linux blinker: a fixed buffer of 32-bit
 * nanosecond samples behind a header with a name, a capacity and a length.
 * Clock readings are inputs: `clockOk` says whether the clock call
 * succeeded and the timestamps are the values it produced.
 */
module CPerf {
  import PerfReport
  import opened PerfSample

  /** `ns_from_timespec`: `tv_nsec + tv_sec * 1000000000` as a `uint64_t`. */
  function NsFromTimespec(sec: nat, nsec: nat): (ns: nat)
    ensures ns < U64
    ensures nsec + sec * NsPerS < U64 ==> ns == nsec + sec * NsPerS
  {
    (nsec + sec * NsPerS) % U64
  }

  /** A normalised timespec is recovered from its nanosecond count as long as that count does not wrap. */
  lemma {:induction false} NsFromTimespecSplits(sec: nat, nsec: nat)
    requires nsec < NsPerS && nsec + sec * NsPerS < U64
    ensures NsFromTimespec(sec, nsec) / NsPerS == sec
    ensures NsFromTimespec(sec, nsec) % NsPerS == nsec
  {
    var ns := nsec + sec * NsPerS;
    assert ns == sec * NsPerS + nsec;
    DivModUnique(ns, sec, nsec);
  }

  /** `perf_mark`: the timestamp in nanoseconds, or 0 when the clock call fails. */
  function Mark(clockOk: bool, sec: nat, nsec: nat): (m: nat)
    ensures m < U64
    ensures !clockOk ==> m == 0
  {
    if clockOk then NsFromTimespec(sec, nsec) else 0
  }

  /** A failed end mark after a good start wraps round: the sample is `2^64 - start` cut to 32 bits. */
  lemma FailedEndMarkWraps(start: nat, sec: nat, nsec: nat)
    requires 0 < start < U64
    ensures SampleOf(start, Mark(false, sec, nsec)) == (U64 - start) % U32
  {
    ZeroEndWraps(start);
  }

  class PerfCounter {
    const name: string
    const capacity: nat
    var length: nat
    /** `samples_ns`, the flexible array member behind the header. */
    const samplesNs: array<nat>

    ghost predicate Valid()
      reads this, samplesNs
    {
      samplesNs.Length == capacity && length <= capacity
      && forall i :: 0 <= i < length ==> samplesNs[i] < U32
    }

    /** The recorded samples, oldest first. */
    ghost function Samples(): seq<nat>
      reads this, samplesNs
      requires Valid()
    {
      samplesNs[..length]
    }

    /** The header `perf_counter_init` writes into fresh memory: no samples yet. */
    constructor (name: string, length: nat)
      ensures Valid() && this.name == name && capacity == length && Samples() == []
      ensures fresh(samplesNs)
    {
      this.name := name;
      capacity := length;
      this.length := 0;
      samplesNs := new nat[length];
    }

    /**
     * `perf_counter_add_sample` given the end mark: a full buffer is left as
     * it is; otherwise the sample goes after the others.
     */
    method AddSample(start: nat, end: nat)
      requires Valid() && start < U64 && end < U64
      modifies this, samplesNs
      ensures Valid()
      ensures old(length) >= capacity ==> length == old(length) && samplesNs[..] == old(samplesNs[..])
      ensures old(length) < capacity ==> Samples() == old(Samples()) + [SampleOf(start, end)]
      ensures forall i :: length <= i < capacity ==> samplesNs[i] == old(samplesNs[i])
    {
      var diff := (end - start) % U64;
      if length >= capacity {
        return;
      }
      samplesNs[length] := diff % U32;
      length := length + 1;
    }

    /** `perf_counter_report`: the report line of the samples in microseconds. */
    method Report() returns (out: string)
      requires Valid()
      ensures out == PerfReport.Line(name, PerfReport.Decimals(Micros(Samples())))
    {
      var us := Micros(samplesNs[..length]);
      out := PerfReport.Print(name, PerfReport.Decimals(us));
    }

    /** `perf_counter_reset`: no samples; name, capacity and buffer stay. */
    method Reset()
      requires Valid()
      modifies this
      ensures Valid() && Samples() == []
    {
      length := 0;
    }
  }

  /**
   * `perf_counter_init` storing into `*slot`: a failed clock query or a
   * failed allocation returns -1 with the slot as it was; otherwise 0 and
   * an empty counter of capacity `length`.
   */
  method Init(slot: PerfCounter?, name: string, length: nat, clockOk: bool, mallocOk: bool)
    returns (status: int, newSlot: PerfCounter?)
    ensures status == 0 || status == -1
    ensures status == -1 <==> !clockOk || !mallocOk
    ensures status == -1 ==> newSlot == slot
    ensures status == 0 ==>
      && newSlot != null && fresh(newSlot) && newSlot.Valid()
      && newSlot.name == name && newSlot.capacity == length && newSlot.Samples() == []
  {
    if !clockOk {
      return -1, slot;
    }
    if !mallocOk {
      return -1, slot;
    }
    var me := new PerfCounter(name, length);
    return 0, me;
  }

  /** `length + 1` additions to a fresh counter: the first `length` are kept, the last is dropped. */
  method FillThenOverflow(name: string, length: nat, start: nat, end: nat) returns (c: PerfCounter)
    requires start < U64 && end < U64
    ensures c.Valid() && c.Samples() == seq(length, _ => SampleOf(start, end))
  {
    c := new PerfCounter(name, length);
    for k := 0 to length
      invariant c.Valid() && c.capacity == length && c.Samples() == seq(k, _ => SampleOf(start, end))
    {
      c.AddSample(start, end);
    }
    c.AddSample(start, end);
  }
}
