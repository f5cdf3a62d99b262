/**
 * What the two Linux performance counters share: the 64-bit nanosecond
 * marks, the sample a pair of marks makes once cut to 32 bits, and the
 * microsecond values a report prints.
 */
module PerfSample {
  import PerfReport

  /** `uint64_t` / `u64` and `uint32_t` / `u32` wrap modulo these. */
  const U64: nat := 0x1_0000_0000_0000_0000
  const U32: nat := 0x1_0000_0000
  const NsPerS: nat := 1000000000

  /**
   * The stored sample: `end - start` in 64-bit unsigned arithmetic, then
   * truncated to 32 bits.  Below the 32-bit bound it is the elapsed time.
   */
  function SampleOf(start: nat, end: nat): (s: nat)
    requires start < U64 && end < U64
    ensures s < U32
    ensures start <= end && end - start < U32 ==> s == end - start
  {
    ((end - start) % U64) % U32
  }

  /** An end mark of 0 after a start past 0 wraps round to `2^64 - start`, cut to 32 bits. */
  lemma {:induction false} ZeroEndWraps(start: nat)
    requires 0 < start < U64
    ensures SampleOf(start, 0) == (U64 - start) % U32
  {
    assert (0 - start) % U64 == U64 - start;
  }

  /** Seconds and nanoseconds below a second are recovered from `sec * 10^9 + nsec`. */
  lemma DivModUnique(n: nat, q: nat, r: nat)
    requires r < NsPerS && n == q * NsPerS + r
    ensures n / NsPerS == q && n % NsPerS == r
  {
  }

  /** The values a report prints: each sample in nanoseconds divided by 1000. */
  function Micros(samples: seq<nat>): (us: seq<nat>)
    ensures |us| == |samples| && forall i :: 0 <= i < |samples| ==> us[i] == samples[i] / 1000
  {
    seq(|samples|, i requires 0 <= i < |samples| => samples[i] / 1000)
  }

  /** Each value of a report line reads back as its sample divided by 1000. */
  lemma MicrosReadBack(samples: seq<nat>, i: nat)
    requires i < |samples|
    ensures var items := PerfReport.Split(PerfReport.Join(PerfReport.Decimals(Micros(samples)), ','), ',');
      |items| == |samples| && items[i] == PerfReport.Decimal(samples[i] / 1000)
      && PerfReport.ParseDecimal(items[i]) == samples[i] / 1000
  {
    PerfReport.DecimalsReadBack(Micros(samples), i);
  }

  /** Without samples the report is the empty line. */
  lemma NoSamplesReportsEmpty(name: string)
    ensures PerfReport.Line(name, PerfReport.Decimals(Micros([]))) == "Performance counter " + name + ": [] us\n"
  {
    assert PerfReport.Decimals(Micros([])) == [];
  }
}
