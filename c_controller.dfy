/**
 * The Linux C controller: two timer descriptors drive it.  The read timer
 * feeds converter readings to the hysteresis edge detector; the IO timer
 * estimates the frequency from the revolution window, rotates the window
 * and publishes the frequency together with a constant duty cycle (there is
 * no PID law in this revision).  Descriptor I/O and the converter are
 * parameters.
 */
module CController {
  import opened Wrappers
  import opened Float32
  import opened Revolutions
  import EspRingBuffer
  import RegisterLayout

  const MicroPer1: nat := 1_000_000
  const NanoPerMicro: nat := 1_000
  const NanoPer1: nat := 1_000_000_000
  const U32: nat := 0x1_0000_0000
  const U64: nat := 0x1_0000_0000_0000_0000

  const ExitSuccess: int := 0
  const ExitFailure: int := 1

  /** The duty cycle the IO branch always applies. */
  const DutyCycle: real := 0.2

  datatype Timespec = Timespec(sec: nat, nsec: nat)
  datatype Itimerspec = Itimerspec(interval: Timespec, value: Timespec)

  /**
   * `interval_from_us`: a periodic timer whose first expiry equals its
   * period.  `us * 1000` is a 64-bit product and wraps.
   */
  function IntervalFromUs(us: nat): (r: Itimerspec)
    requires us < U64
    ensures r.interval == r.value
    ensures r.value.nsec < NanoPer1
  {
    var t := Timespec(us / MicroPer1, (us * NanoPerMicro) % U64 % NanoPer1);
    Itimerspec(t, t)
  }

  /** Without wrap-around the timer period is exactly `us` microseconds, in whole seconds and nanoseconds. */
  lemma IntervalFromUsIsExact(us: nat)
    requires us * NanoPerMicro < U64
    ensures IntervalFromUs(us).value.sec * NanoPer1 + IntervalFromUs(us).value.nsec == us * NanoPerMicro
  {
    var q, r := us / MicroPer1, us % MicroPer1;
    assert us == q * MicroPer1 + r;
    assert us * NanoPerMicro == q * NanoPer1 + r * NanoPerMicro;
    assert r * NanoPerMicro < NanoPer1;
    DivModUnique(us * NanoPerMicro, q, r * NanoPerMicro);
  }

  lemma DivModUnique(x: nat, q: nat, r: nat)
    requires x == q * NanoPer1 + r && r < NanoPer1
    ensures x % NanoPer1 == r
  {
  }

  datatype CControllerOptions = CControllerOptions(
    readIntervalUs: nat,
    thresholdClose: nat,         // u8
    thresholdFar: nat,           // u8
    revolutionBins: nat,
    rotateIntervalUs: nat)       // u64

  /**
   * The IO branch's estimate: `sum / (all_bins_interval / 10^6)`, where the
   * local named `all_bins_interval_s` holds the u64 product
   * `rotate_interval_us * bins`, a duration in microseconds.
   */
  function Frequency(sum: nat, o: CControllerOptions): F32 {
    var allBinsIntervalUs := (o.rotateIntervalUs * o.revolutionBins) % U64;
    Div(Fin(sum as real), Div(Fin(allBinsIntervalUs as real), Fin(MicroPer1 as real)))
  }

  /** Without wrap-around the estimate is revolutions per second of the window. */
  lemma FrequencyIsRevolutionsPerSecond(sum: nat, o: CControllerOptions)
    requires 0 < o.rotateIntervalUs * o.revolutionBins < U64
    ensures Frequency(sum, o)
         == Fin(sum as real / ((o.rotateIntervalUs * o.revolutionBins) as real / MicroPer1 as real))
  {
    var p := o.rotateIntervalUs * o.revolutionBins;
    assert p % U64 == p;
    var seconds := p as real / MicroPer1 as real;
    assert seconds > 0.0;
    assert Div(Fin(p as real), Fin(MicroPer1 as real)) == Fin(seconds);
  }

  /** The descriptors `controller_init` opens, in the order it opens them. */
  datatype Descriptor = I2cFd | ReadTimerFd | IoTimerFd

  /** The steps of `controller_init` that can fail, in order. */
  datatype InitStep = OpenI2c | SetSlaveAddress | CreateReadTimer | SetReadTimer | CreateIoTimer | SetIoTimer

  /** Position of a step in `controller_init`. */
  function StepIndex(step: InitStep): nat {
    match step
    case OpenI2c => 0
    case SetSlaveAddress => 1
    case CreateReadTimer => 2
    case SetReadTimer => 3
    case CreateIoTimer => 4
    case SetIoTimer => 5
  }

  /** The step whose success opens a descriptor. */
  function Opener(d: Descriptor): InitStep {
    match d
    case I2cFd => OpenI2c
    case ReadTimerFd => CreateReadTimer
    case IoTimerFd => CreateIoTimer
  }

  /**
   * The descriptors already open when a step runs: those whose opening step
   * came before it, in the order they were opened.
   */
  function OpenBefore(step: InitStep): (fds: seq<Descriptor>)
    ensures |fds| <= 3 && fds == [I2cFd, ReadTimerFd, IoTimerFd][..|fds|]
    ensures forall d: Descriptor :: d in fds <==> StepIndex(Opener(d)) < StepIndex(step)
  {
    match step
    case OpenI2c => []
    case SetSlaveAddress => [I2cFd]
    case CreateReadTimer => [I2cFd]
    case SetReadTimer => [I2cFd, ReadTimerFd]
    case CreateIoTimer => [I2cFd, ReadTimerFd]
    case SetIoTimer => [I2cFd, ReadTimerFd, IoTimerFd]
  }

  function Reversed<T>(s: seq<T>): (r: seq<T>)
    ensures |r| == |s| && forall i :: 0 <= i < |s| ==> r[i] == s[|s| - 1 - i]
  {
    if s == [] then [] else [s[|s| - 1]] + Reversed(s[..|s| - 1])
  }

  datatype InitOutcome = InitOutcome(status: int, closed: seq<Descriptor>, ringBufferFreed: bool)

  /**
   * `controller_init` given the first step that fails (if any): success
   * returns `EXIT_SUCCESS` with nothing closed; a failure closes exactly the
   * descriptors opened so far, newest first, and returns `EXIT_FAILURE`.
   * The ring buffer allocated first is never freed.
   */
  method Init(failAt: Option<InitStep>) returns (r: InitOutcome)
    ensures failAt.None? ==> r == InitOutcome(ExitSuccess, [], false)
    ensures failAt.Some? ==> r == InitOutcome(ExitFailure, Reversed(OpenBefore(failAt.value)), false)
  {
    var closed: seq<Descriptor> := [];
    if failAt == Some(OpenI2c) {
      return InitOutcome(ExitFailure, closed, false);
    }
    if failAt == Some(SetSlaveAddress) || failAt == Some(CreateReadTimer) {
      closed := closed + [I2cFd];
      return InitOutcome(ExitFailure, closed, false);
    }
    if failAt == Some(SetReadTimer) || failAt == Some(CreateIoTimer) {
      closed := closed + [ReadTimerFd];
      closed := closed + [I2cFd];
      return InitOutcome(ExitFailure, closed, false);
    }
    if failAt == Some(SetIoTimer) {
      closed := closed + [IoTimerFd];
      closed := closed + [ReadTimerFd];
      closed := closed + [I2cFd];
      return InitOutcome(ExitFailure, closed, false);
    }
    return InitOutcome(ExitSuccess, closed, false);
  }

  /** Unwinding closes every descriptor that was open exactly once, and nothing else. */
  lemma UnwindClosesEachOpenOnce(step: InitStep, d: Descriptor)
    ensures d in Reversed(OpenBefore(step)) <==> d in OpenBefore(step)
    ensures forall i, j :: 0 <= i < j < |Reversed(OpenBefore(step))| ==>
              Reversed(OpenBefore(step))[i] != Reversed(OpenBefore(step))[j]
  {
    ReversedMembers(OpenBefore(step), d);
    var s := OpenBefore(step);
    assert forall i, j :: 0 <= i < j < |s| ==> s[i] != s[j];
  }

  lemma ReversedMembers<T>(s: seq<T>, x: T)
    ensures x in Reversed(s) <==> x in s
  {
    if x in s {
      var i :| 0 <= i < |s| && s[i] == x;
      assert Reversed(s)[|s| - 1 - i] == x;
    }
    if x in Reversed(s) {
      var i :| 0 <= i < |s| && Reversed(s)[i] == x;
      assert s[|s| - 1 - i] == x;
    }
  }

  class CController {
    const options: CControllerOptions
    const revolutions: EspRingBuffer.RingBuffer
    const i2cFd: int
    const readTimerFd: int
    const ioTimerFd: int
    var isClose: bool
    /** The floats of the input table, keyed by their word address. */
    var inputRegisters: map<nat, F32>

    ghost predicate Valid()
      reads this, revolutions
    {
      && revolutions.Valid()
      && revolutions.length == options.revolutionBins > 0
    }

    ghost function Detector(): Counter
      requires Valid()
      reads this, revolutions, revolutions.slots
    {
      Counter(isClose, revolutions.Window())
    }

    constructor (options: CControllerOptions, revolutions: EspRingBuffer.RingBuffer,
                 i2cFd: int, readTimerFd: int, ioTimerFd: int)
      requires revolutions.Valid() && revolutions.length == options.revolutionBins > 0
      ensures Valid() && !isClose && inputRegisters == map[]
      ensures this.options == options && this.revolutions == revolutions
      ensures this.i2cFd == i2cFd && this.readTimerFd == readTimerFd && this.ioTimerFd == ioTimerFd
    {
      this.options := options;
      this.revolutions := revolutions;
      this.i2cFd := i2cFd;
      this.readTimerFd := readTimerFd;
      this.ioTimerFd := ioTimerFd;
      isClose := false;
      inputRegisters := map[];
    }

    /** The `for` loop of the IO branch: the bins added up in a `uint32_t`. */
    method SumBins() returns (sum: nat)
      requires Valid()
      ensures sum == Sum(revolutions.slots[..]) % U32
    {
      sum := 0;
      for i := 0 to revolutions.length
        invariant sum == Sum(revolutions.slots[..i]) % U32
      {
        assert revolutions.slots[..i + 1][..i] == revolutions.slots[..i];
        AddMod(Sum(revolutions.slots[..i]), revolutions.slots[i]);
        sum := (sum + revolutions.slots[i]) % U32;
      }
      assert revolutions.slots[..revolutions.length] == revolutions.slots[..];
    }

    /**
     * `controller_handle`: the read timer runs one reading through the edge
     * detector, the IO timer estimates the frequency and then rotates the
     * window, and any other descriptor is ignored.  A failed reading (a
     * negative `adc`) returns `EXIT_FAILURE`, which is 1, the same value a
     * handled read returns.  `duty` is what goes to the PWM.
     */
    method Handle(fd: int, adc: int) returns (status: int, duty: Option<F32>)
      requires Valid() && adc <= 255
      modifies this, revolutions, revolutions.slots
      ensures Valid()
      ensures fd == readTimerFd ==>
        && status == 1 && duty.None? && inputRegisters == old(inputRegisters)
        && (adc < 0 ==> Detector() == old(Detector()))
        && (adc >= 0 ==> Detector() == Observe(old(Detector()), adc as real,
                                               options.thresholdClose as real, options.thresholdFar as real))
      ensures fd != readTimerFd && fd == ioTimerFd ==>
        && status == 1 && duty == Some(Fin(DutyCycle)) && isClose == old(isClose)
        && revolutions.Window() == old(revolutions.Window())[1..] + [0]
        && inputRegisters == old(inputRegisters)
             [RegisterLayout.InputOffset(RegisterLayout.RegFrequency)
                := Frequency(Sum(old(revolutions.slots[..])) % U32, options)]
             [RegisterLayout.InputOffset(RegisterLayout.RegControlSignal) := Fin(DutyCycle)]
      ensures fd != readTimerFd && fd != ioTimerFd ==>
        && status == 0 && duty.None?
        && Detector() == old(Detector()) && inputRegisters == old(inputRegisters)
    {
      if fd == readTimerFd {
        if adc < 0 {
          return ExitFailure, None;
        }
        ghost var before := Detector();
        if adc < options.thresholdClose && !isClose {
          isClose := true;
          revolutions.IncrementBack();
          assert revolutions.Window() == IncrementBack(before.bins);
        } else if adc > options.thresholdFar && isClose {
          isClose := false;
        }
        return 1, None;
      } else if fd == ioTimerFd {
        ghost var w, slots0, regs := revolutions.Window(), revolutions.slots[..], inputRegisters;
        var sum := SumBins();
        var frequency := Frequency(sum, options);
        revolutions.Push(0);
        assert revolutions.Window() == w[1..] + [0];
        inputRegisters := inputRegisters[RegisterLayout.InputOffset(RegisterLayout.RegFrequency) := frequency];
        inputRegisters := inputRegisters[RegisterLayout.InputOffset(RegisterLayout.RegControlSignal) := Fin(DutyCycle)];
        assert frequency == Frequency(Sum(slots0) % U32, options);
        return 1, Some(Fin(DutyCycle));
      }
      return 0, None;
    }
  }

  /** The bins as `uint32_t` slots hold them: each reduced modulo 2^32. */
  function WrappedBins(a: seq<nat>): (w: seq<nat>)
    ensures |w| == |a| && forall i :: 0 <= i < |a| ==> w[i] == a[i] % U32
  {
    if a == [] then [] else WrappedBins(a[..|a| - 1]) + [a[|a| - 1] % U32]
  }

  /**
   * The bins are read only through the `uint32_t` sum of the IO branch, and
   * that sum is the same whether each bin wraps at 2^32 or not.
   */
  lemma {:induction false} WrappedBinsSameSum(a: seq<nat>)
    ensures Sum(WrappedBins(a)) % U32 == Sum(a) % U32
  {
    if a != [] {
      var n := |a| - 1;
      WrappedBinsSameSum(a[..n]);
      SumAppend(WrappedBins(a[..n]), [a[n] % U32]);
      SumAppend(a[..n], [a[n]]);
      assert a == a[..n] + [a[n]];
      WrappedAdd(Sum(WrappedBins(a[..n])), Sum(a[..n]), a[n]);
    }
  }

  lemma WrappedAdd(x: nat, y: nat, b: nat)
    requires x % U32 == y % U32
    ensures (x + b % U32) % U32 == (y + b) % U32
  {
  }

  /** Reducing the running sum after every addition gives the reduced total. */
  lemma AddMod(a: nat, b: nat)
    ensures (a % U32 + b) % U32 == (a + b) % U32
  {
  }
}
