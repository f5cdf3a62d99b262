/**
 * The Rust performance counter of the Linux PID program: a vector of
 * 32-bit nanosecond samples that never grows past the capacity it was
 * created with, and a measurement guard that records one sample when it is
 * dropped.  Clock calls are inputs: a status (0 is success) and the
 * timespec the call produced.
 */
module PiPerf {
  import opened Wrappers
  import PerfReport
  import opened PerfSample

  /** `Timespec` with its two `u32` fields. */
  datatype Timespec = Timespec(sec: nat, nsec: nat)

  predicate IsU32Timespec(t: Timespec) {
    t.sec < U32 && t.nsec < U32
  }

  /** `to_ns`: computed in `u64`, where it cannot overflow for `u32` fields. */
  function ToNs(t: Timespec): (ns: nat)
    requires IsU32Timespec(t)
    ensures ns < U64
    ensures ns == t.nsec + t.sec * NsPerS
  {
    assert t.sec * NsPerS <= (U32 - 1) * NsPerS;
    t.nsec + t.sec * NsPerS
  }

  /** `Timespec::now`: the clock's reading, or all zero when the call fails. */
  function Now(status: int, reading: Timespec): (t: Timespec)
    requires IsU32Timespec(reading)
    ensures IsU32Timespec(t)
    ensures status != 0 ==> ToNs(t) == 0
  {
    if status != 0 then Timespec(0, 0) else reading
  }

  /** A failed end reading after a start past 0 makes `end - start_ns` go below zero. */
  lemma FailedEndReadingUnderflows(start: nat, status: int, reading: Timespec)
    requires 0 < start < U64 && status != 0 && IsU32Timespec(reading)
    ensures ToNs(Now(status, reading)) < start
    ensures SampleOf(start, ToNs(Now(status, reading))) == (U64 - start) % U32
  {
    ZeroEndWraps(start);
  }

  class Counter {
    const name: string
    /** The vector's capacity, fixed at creation. */
    const capacity: nat
    var samples: seq<nat>

    ghost predicate Valid()
      reads this
    {
      |samples| <= capacity && forall i :: 0 <= i < |samples| ==> samples[i] < U32
    }

    constructor (name: string, capacity: nat)
      ensures Valid() && this.name == name && this.capacity == capacity && samples == []
    {
      this.name := name;
      this.capacity := capacity;
      samples := [];
    }

    /** `add_sample` given the end reading: `push_within_capacity`, which drops the sample when full. */
    method AddSample(startNs: nat, status: int, reading: Timespec)
      requires Valid() && startNs < U64 && IsU32Timespec(reading)
      modifies this
      ensures Valid()
      ensures |old(samples)| < capacity ==> samples == old(samples) + [SampleOf(startNs, ToNs(Now(status, reading)))]
      ensures |old(samples)| == capacity ==> samples == old(samples)
    {
      var end := ToNs(Now(status, reading));
      var diff := ((end - startNs) % U64) % U32;
      if |samples| < capacity {
        samples := samples + [diff];
      }
    }

    /** `report`: the samples in microseconds on one line. */
    method Report() returns (out: string)
      requires Valid()
      ensures out == PerfReport.Line(name, PerfReport.Decimals(Micros(samples)))
    {
      out := PerfReport.Print(name, PerfReport.Decimals(Micros(samples)));
    }

    /** `reset`: `clear` keeps the capacity. */
    method Reset()
      requires Valid()
      modifies this
      ensures Valid() && samples == []
    {
      samples := [];
    }
  }

  /**
   * `Counter::new`: the error of a failed `clock_getres` (`status` is its
   * return value), otherwise an empty counter.  `Vec::with_capacity`
   * grants at least `length`; `granted` is what it gave.
   */
  method New(name: string, length: nat, status: int, granted: nat) returns (r: Result<Counter, int>)
    requires granted >= length
    ensures status != 0 <==> r.Err?
    ensures r.Err? ==> r.error == status
    ensures r.Ok? ==>
      && fresh(r.value) && r.value.Valid() && r.value.name == name
      && r.value.capacity >= length && r.value.samples == []
  {
    if status != 0 {
      return Err(status);
    }
    var c := new Counter(name, granted);
    return Ok(c);
  }

  /** A `Measurement`: the counter it belongs to and the start in nanoseconds. */
  datatype Measurement = Measurement(counter: Counter, start: nat)

  /** `measure`: the guard with `Timespec::now().to_ns()` as its start. */
  function Measure(c: Counter, status: int, reading: Timespec): (m: Measurement)
    requires IsU32Timespec(reading)
    ensures m.counter == c && m.start < U64
    ensures status != 0 ==> m.start == 0
  {
    Measurement(c, ToNs(Now(status, reading)))
  }

  /** `Drop for Measurement`: exactly one `add_sample` with the guard's start. */
  method Drop(m: Measurement, status: int, reading: Timespec)
    requires m.counter.Valid() && m.start < U64 && IsU32Timespec(reading)
    modifies m.counter
    ensures m.counter.Valid()
    ensures |old(m.counter.samples)| < m.counter.capacity ==>
      m.counter.samples == old(m.counter.samples) + [SampleOf(m.start, ToNs(Now(status, reading)))]
    ensures |old(m.counter.samples)| == m.counter.capacity ==> m.counter.samples == old(m.counter.samples)
  {
    m.counter.AddSample(m.start, status, reading);
  }

  /** A scope measured from `t0` to `t1` on a fresh counter leaves the one elapsed time as its sample. */
  method MeasureScope(name: string, length: nat, t0: Timespec, t1: Timespec) returns (c: Counter)
    requires length > 0 && IsU32Timespec(t0) && IsU32Timespec(t1)
    requires ToNs(t0) <= ToNs(t1) < ToNs(t0) + U32
    ensures c.Valid() && c.samples == [ToNs(t1) - ToNs(t0)]
  {
    c := new Counter(name, length);
    var m := Measure(c, 0, t0);
    Drop(m, 0, t1);
  }

  /** A normalised timespec is recovered from `to_ns`. */
  lemma {:induction false} ToNsSplits(t: Timespec)
    requires IsU32Timespec(t) && t.nsec < NsPerS
    ensures ToNs(t) / NsPerS == t.sec && ToNs(t) % NsPerS == t.nsec
  {
    DivModUnique(ToNs(t), t.sec, t.nsec);
  }
}
