/**
 * The Rust performance counter of the ESP32 blinker: samples are CPU cycle
 * counts, kept in a vector that never grows past its capacity, and the
 * report converts each to microseconds with the CPU frequency.  The cycle
 * counter and the clock-tree query are inputs; the `{:.2}` rendering of
 * a value is the `render` parameter.
 */
module CyclePerf {
  import opened Wrappers
  import opened Float32
  import PerfReport

  /** `u32` (`esp_cpu_cycle_count_t`) wraps modulo this. */
  const U32: nat := 0x1_0000_0000

  /**
   * `(end - start) as u32` in `u32` arithmetic as a release build computes
   * it, wrapping.  A debug build panics exactly when `end < start`.
   */
  function CycleDiff(start: nat, end: nat): (d: nat)
    requires start < U32 && end < U32
    ensures d < U32
    ensures start <= end ==> d == end - start
  {
    (end - start) % U32
  }

  /**
   * Across at most one wrap of the cycle counter the wrapping difference is
   * the number of cycles that passed, and the counter wrapped exactly when
   * `end < start`, the case a debug build's subtraction rejects.
   */
  lemma {:induction false} CycleDiffAcrossWrap(start: nat, elapsed: nat)
    requires start < U32 && elapsed < U32
    ensures CycleDiff(start, (start + elapsed) % U32) == elapsed
    ensures (start + elapsed) % U32 < start <==> start + elapsed >= U32
  {
    var end := (start + elapsed) % U32;
    if start + elapsed >= U32 {
      assert end == start + elapsed - U32;
      assert (end - start) % U32 == (elapsed - U32) % U32;
    } else {
      assert end == start + elapsed;
    }
  }

  /** The value printed for one sample: `sample as f32 * 1e6 / cpu_frequency as f32`. */
  function Micros(sample: nat, cpuFrequency: nat): (v: F32)
    ensures cpuFrequency > 0 ==> v == Fin(sample as real * 1000000.0 / cpuFrequency as real)
    ensures cpuFrequency == 0 && sample > 0 ==> v == PosInf
    ensures cpuFrequency == 0 && sample == 0 ==> v == NaN
  {
    Div(Mul(Fin(sample as real), Fin(1000000.0)), Fin(cpuFrequency as real))
  }

  /** The rendered values of a report line. */
  function Rendered(samples: seq<nat>, cpuFrequency: nat, render: F32 -> string): (items: seq<string>)
    ensures |items| == |samples|
    ensures forall i :: 0 <= i < |samples| ==> items[i] == render(Micros(samples[i], cpuFrequency))
  {
    seq(|samples|, i requires 0 <= i < |samples| => render(Micros(samples[i], cpuFrequency)))
  }

  /** With a rendering that writes no comma, each printed value is recovered from the line. */
  lemma RenderedReadBack(samples: seq<nat>, cpuFrequency: nat, render: F32 -> string, i: nat)
    requires i < |samples|
    requires forall x :: ',' !in render(x)
    ensures var items := PerfReport.Split(PerfReport.Join(Rendered(samples, cpuFrequency, render), ','), ',');
      |items| == |samples| && items[i] == render(Micros(samples[i], cpuFrequency))
  {
    PerfReport.SplitJoin(Rendered(samples, cpuFrequency, render), ',');
  }

  class Counter {
    const name: string
    const cpuFrequency: nat
    /** The vector's capacity, fixed at creation. */
    const capacity: nat
    var samples: seq<nat>

    ghost predicate Valid()
      reads this
    {
      |samples| <= capacity && forall i :: 0 <= i < |samples| ==> samples[i] < U32
    }

    constructor (name: string, cpuFrequency: nat, capacity: nat)
      ensures Valid() && this.name == name && this.cpuFrequency == cpuFrequency
      ensures this.capacity == capacity && samples == []
    {
      this.name := name;
      this.cpuFrequency := cpuFrequency;
      this.capacity := capacity;
      samples := [];
    }

    /** `add_sample` given the end count: `push_within_capacity`, which drops the sample when full. */
    method AddSample(start: nat, end: nat)
      requires Valid() && start < U32 && end < U32
      modifies this
      ensures Valid()
      ensures |old(samples)| < capacity ==> samples == old(samples) + [CycleDiff(start, end)]
      ensures |old(samples)| == capacity ==> samples == old(samples)
    {
      var diff := (end - start) % U32;
      if |samples| < capacity {
        samples := samples + [diff];
      }
    }

    /** `report`: each sample in microseconds, rendered, commas between. */
    method Report(render: F32 -> string) returns (out: string)
      requires Valid()
      ensures out == PerfReport.Line(name, Rendered(samples, cpuFrequency, render))
    {
      out := PerfReport.Print(name, Rendered(samples, cpuFrequency, render));
    }

    /** `reset`: `clear` keeps the capacity. */
    method Reset()
      requires Valid()
      modifies this
      ensures Valid() && samples == []
    {
      samples := [];
    }
  }

  /**
   * `Counter::new`: an error when the CPU frequency query does not return
   * `ESP_OK` (0), otherwise an empty counter.  `Vec::with_capacity` grants
   * at least `length`; `granted` is what it gave.
   */
  method New(name: string, length: nat, status: int, cpuFrequency: nat, granted: nat)
    returns (r: Result<Counter, int>)
    requires granted >= length
    ensures status != 0 <==> r.Err?
    ensures r.Err? ==> r.error == status
    ensures r.Ok? ==>
      && fresh(r.value) && r.value.Valid() && r.value.name == name
      && r.value.cpuFrequency == cpuFrequency
      && r.value.capacity >= length && r.value.samples == []
  {
    if status != 0 {
      return Err(status);
    }
    var c := new Counter(name, cpuFrequency, granted);
    return Ok(c);
  }

  /** A `Measurement`: the counter it belongs to and the cycle count at the start. */
  datatype Measurement = Measurement(counter: Counter, start: nat)

  /** `Drop for Measurement`: exactly one `add_sample` with the guard's start. */
  method Drop(m: Measurement, end: nat)
    requires m.counter.Valid() && m.start < U32 && end < U32
    modifies m.counter
    ensures m.counter.Valid()
    ensures |old(m.counter.samples)| < m.counter.capacity ==>
      m.counter.samples == old(m.counter.samples) + [CycleDiff(m.start, end)]
    ensures |old(m.counter.samples)| == m.counter.capacity ==> m.counter.samples == old(m.counter.samples)
  {
    m.counter.AddSample(m.start, end);
  }

  /** A scope that spans a wrap of the cycle counter still records the cycles it took. */
  method MeasureAcrossWrap(name: string, cpuFrequency: nat, start: nat, elapsed: nat) returns (c: Counter)
    requires start < U32 && elapsed < U32
    ensures c.Valid() && c.samples == [elapsed]
  {
    c := new Counter(name, cpuFrequency, 1);
    var m := Measurement(c, start);
    CycleDiffAcrossWrap(start, elapsed);
    Drop(m, (start + elapsed) % U32);
  }
}
