/**
 * The PID motor-speed controller that runs against a register bank: the
 * read phase counts revolutions with a hysteresis edge detector, the control
 * phase turns the revolution window into a frequency, runs the PID law and
 * drives the actuator.  Hardware reads and writes are parameters.
 */
module Controller {
  import opened Wrappers
  import opened Float32
  import opened Revolutions
  import PidRegisters

  const PwmMin: real := 0.2
  const PwmMax: real := 1.0

  datatype ControllerOptions = ControllerOptions(
    controlFrequency: nat,      // u32: control phases per second
    timeWindowBins: nat,        // length of the revolution window
    readsPerBin: nat,           // read phases per control phase
    thresholdClose: real,
    thresholdFar: real)

  datatype ControlParams = ControlParams(
    targetFrequency: F32,
    proportionalFactor: F32,
    integrationTime: F32,
    differentiationTime: F32)

  datatype Feedback = Feedback(delta: F32, integrationComponent: F32)

  predicate FeedbackFinite(fb: Feedback) {
    fb.delta.Fin? && fb.integrationComponent.Fin?
  }

  /**
   * What a phase reports instead of success: the two hardware failures, the
   * ADC read and the PWM update, and `Panic`, where `Duration::mul_f32`
   * rejects a NaN duty cycle and the run is aborted.
   */
  datatype Error = AdcReadFailed | PwmUpdateFailed | Panic

  /** `read_adc`: the converter byte scaled to `[0, 1]`. */
  function Normalized(raw: nat): (r: real)
    requires raw <= 255
    ensures 0.0 <= r <= 1.0
  {
    raw as real / 255.0
  }

  /** Every successful ADC read is a converter byte. */
  predicate AdcBytes(adc: seq<Option<nat>>) {
    forall i :: 0 <= i < |adc| && adc[i].Some? ==> adc[i].value <= 255
  }

  /** What a run of read phases feeds the edge detector: the successful reads, scaled, in order. */
  function Readings(adc: seq<Option<nat>>): (r: seq<real>)
    requires AdcBytes(adc)
    ensures |r| <= |adc|
    ensures forall j :: 0 <= j < |r| ==> 0.0 <= r[j] <= 1.0
    decreases |adc|
  {
    if adc == [] then []
    else (if adc[0].Some? then [Normalized(adc[0].value)] else []) + Readings(adc[1..])
  }

  /** One more read extends the readings by its scaled value, or not at all when it failed. */
  lemma {:induction false} ReadingsSnoc(adc: seq<Option<nat>>, x: Option<nat>)
    requires AdcBytes(adc) && (x.Some? ==> x.value <= 255)
    ensures AdcBytes(adc + [x])
    ensures Readings(adc + [x]) == Readings(adc) + (if x.Some? then [Normalized(x.value)] else [])
    decreases |adc|
  {
    var a := adc + [x];
    assert forall i :: 0 <= i < |a| ==> a[i] == if i < |adc| then adc[i] else x;
    if adc == [] {
      assert a[1..] == [];
    } else {
      var h := if adc[0].Some? then [Normalized(adc[0].value)] else [];
      var t := if x.Some? then [Normalized(x.value)] else [];
      assert a[0] == adc[0];
      assert a[1..] == adc[1..] + [x];
      ReadingsSnoc(adc[1..], x);
      assert h + (Readings(adc[1..]) + t) == (h + Readings(adc[1..])) + t;
    }
  }

  /** `interval_rotate_once_s` = 1 / control_frequency. */
  function IntervalRotateOnce(o: ControllerOptions): F32 {
    Div(Fin(1.0), Fin(o.controlFrequency as real))
  }

  /** `interval_rotate_all_s` = the duration of the whole window. */
  function IntervalRotateAll(o: ControllerOptions): F32 {
    Mul(IntervalRotateOnce(o), Fin(o.timeWindowBins as real))
  }

  /** `calculate_frequency`: revolutions in the window over the window's duration. */
  function CalculateFrequency(bins: seq<nat>, o: ControllerOptions): F32 {
    Div(Fin(Sum(bins) as real), IntervalRotateAll(o))
  }

  /**
   * For a positive control frequency and a non-empty window the estimate is
   * `sum / (bins / control_frequency)`, the mean revolutions per second.
   */
  lemma FrequencyIsWindowMean(bins: seq<nat>, o: ControllerOptions)
    requires o.controlFrequency > 0 && o.timeWindowBins > 0
    ensures CalculateFrequency(bins, o)
         == Fin(Sum(bins) as real / (o.timeWindowBins as real / o.controlFrequency as real))
  {
    var cf := o.controlFrequency as real;
    var n := o.timeWindowBins as real;
    assert IntervalRotateAll(o) == Fin(1.0 / cf * n);
    assert 1.0 / cf * n == n / cf;
  }

  /** A zero control frequency makes the window infinitely long, so the estimate is 0. */
  lemma FrequencyWithoutControlRate(bins: seq<nat>, o: ControllerOptions)
    requires o.controlFrequency == 0 && o.timeWindowBins > 0
    ensures CalculateFrequency(bins, o) == Fin(0.0)
  {
  }

  /** One revolution in a window of 10 bins at 10 Hz is 1 Hz. */
  lemma OneRevolutionIsOneHertz(bins: seq<nat>)
    requires Sum(bins) == 1
    ensures CalculateFrequency(bins, ControllerOptions(10, 10, 100, 0.36, 0.40)) == Fin(1.0)
  {
    FrequencyIsWindowMean(bins, ControllerOptions(10, 10, 100, 0.36, 0.40));
  }

  /** `ControlParams::read`: the four holding registers in order. */
  function ParamsOf(holding: seq<F32>): ControlParams
    requires |holding| == 4
  {
    ControlParams(holding[0], holding[1], holding[2], holding[3])
  }

  /**
   * `calculate_control`: the PID law.  The integral grows by the integration
   * factor times the previous delta, the derivative is the difference of
   * the deltas, and the feedback that is kept is sanitised.
   */
  function CalculateControl(p: ControlParams, frequency: F32, fb: Feedback, dt: F32): (r: (F32, Feedback))
    ensures FeedbackFinite(r.1)
  {
    var integrationFactor := Mul(Div(p.proportionalFactor, p.integrationTime), dt);
    var differentiationFactor := Div(Mul(p.proportionalFactor, p.differentiationTime), dt);
    ControlWithFactors(p, frequency, fb, integrationFactor, differentiationFactor)
  }

  /** The components of `calculate_control` once the two factors are known. */
  function ControlWithFactors(p: ControlParams, frequency: F32, fb: Feedback,
                              integrationFactor: F32, differentiationFactor: F32): (r: (F32, Feedback))
    ensures FeedbackFinite(r.1)
  {
    var delta := Sub(p.targetFrequency, frequency);
    var proportional := Mul(p.proportionalFactor, delta);
    var integration := Add(fb.integrationComponent, Mul(integrationFactor, fb.delta));
    var differentiation := Mul(differentiationFactor, Sub(delta, fb.delta));
    var signal := Add(Add(proportional, integration), differentiation);
    (signal, Feedback(FiniteOrZero(delta), FiniteOrZero(integration)))
  }

  /**
   * The textbook PID law on real numbers:
   * signal = Kp*d + (I' + Kp/Ti*dt*d') + Kp*Td/dt*(d - d'), where d is the
   * current delta, d' the previous delta and I' the previous integral.
   */
  function PidLawReal(kp: real, ti: real, td: real, dt: real, d: real, d': real, i': real): (r: (real, real))
    requires ti != 0.0 && dt != 0.0
  {
    (kp * d + (i' + kp / ti * dt * d') + kp * td / dt * (d - d'), i' + kp / ti * dt * d')
  }

  /** On finite parameters the two factors are `Kp/Ti*dt` and `Kp*Td/dt`. */
  lemma FactorsOnFinite(p: ControlParams, frequency: F32, fb: Feedback, dt: real)
    requires p.proportionalFactor.Fin? && p.integrationTime.Fin? && p.differentiationTime.Fin?
    requires p.integrationTime.v != 0.0 && dt != 0.0
    ensures CalculateControl(p, frequency, fb, Fin(dt))
         == ControlWithFactors(p, frequency, fb,
                               Fin(p.proportionalFactor.v / p.integrationTime.v * dt),
                               Fin(p.proportionalFactor.v * p.differentiationTime.v / dt))
  {
    assert Mul(Div(p.proportionalFactor, p.integrationTime), Fin(dt))
        == Fin(p.proportionalFactor.v / p.integrationTime.v * dt);
    assert Div(Mul(p.proportionalFactor, p.differentiationTime), Fin(dt))
        == Fin(p.proportionalFactor.v * p.differentiationTime.v / dt);
  }

  /** The textbook law written on the two factors `Kp/Ti*dt` and `Kp*Td/dt`. */
  lemma LawOnFactors(kp: real, ti: real, td: real, dt: real, d: real, d': real, i': real)
    requires ti != 0.0 && dt != 0.0
    ensures var fi, fd := kp / ti * dt, kp * td / dt;
      PidLawReal(kp, ti, td, dt, d, d', i') == (kp * d + (i' + fi * d') + fd * (d - d'), i' + fi * d')
  {
  }

  /** With finite gain factors the control step is the law written on those factors. */
  lemma ControlWithFiniteFactors(p: ControlParams, frequency: real, fb: Feedback, fi: real, fd: real)
    requires p.targetFrequency.Fin? && p.proportionalFactor.Fin? && FeedbackFinite(fb)
    ensures ControlWithFactors(p, Fin(frequency), fb, Fin(fi), Fin(fd)).1
         == Feedback(Fin(p.targetFrequency.v - frequency), Fin(fb.integrationComponent.v + fi * fb.delta.v))
    ensures ControlWithFactors(p, Fin(frequency), fb, Fin(fi), Fin(fd)).0
         == Fin(p.proportionalFactor.v * (p.targetFrequency.v - frequency)
                + (fb.integrationComponent.v + fi * fb.delta.v)
                + fd * ((p.targetFrequency.v - frequency) - fb.delta.v))
  {
    SignalOnReals(p.proportionalFactor.v, p.targetFrequency.v, frequency,
                  fb.integrationComponent.v, fb.delta.v, fi, fd);
  }

  /** The signal of the PID law on finite operands, evaluated on reals. */
  lemma SignalOnReals(kp: real, target: real, frequency: real, i': real, d': real, fi: real, fd: real)
    ensures Sub(Fin(target), Fin(frequency)) == Fin(target - frequency)
    ensures Add(Fin(i'), Mul(Fin(fi), Fin(d'))) == Fin(i' + fi * d')
    ensures Add(Add(Mul(Fin(kp), Sub(Fin(target), Fin(frequency))), Add(Fin(i'), Mul(Fin(fi), Fin(d')))),
                Mul(Fin(fd), Sub(Sub(Fin(target), Fin(frequency)), Fin(d'))))
         == Fin(kp * (target - frequency) + (i' + fi * d') + fd * ((target - frequency) - d'))
  {
    var d := target - frequency;
    assert Sub(Fin(target), Fin(frequency)) == Fin(d);
    assert Sub(Fin(d), Fin(d')) == Fin(d - d');
  }

  /** On finite values the controller computes exactly the real-valued law. */
  lemma PidLawOnFiniteValues(p: ControlParams, frequency: real, fb: Feedback, dt: real)
    requires p.targetFrequency.Fin? && p.proportionalFactor.Fin?
    requires p.integrationTime.Fin? && p.differentiationTime.Fin?
    requires p.integrationTime.v != 0.0 && dt != 0.0 && FeedbackFinite(fb)
    ensures CalculateControl(p, Fin(frequency), fb, Fin(dt))
         == (Fin(PidLawReal(p.proportionalFactor.v, p.integrationTime.v, p.differentiationTime.v, dt,
                            p.targetFrequency.v - frequency, fb.delta.v, fb.integrationComponent.v).0),
             Feedback(Fin(p.targetFrequency.v - frequency),
                      Fin(PidLawReal(p.proportionalFactor.v, p.integrationTime.v, p.differentiationTime.v, dt,
                                     p.targetFrequency.v - frequency, fb.delta.v, fb.integrationComponent.v).1)))
  {
    var kp, ti, td := p.proportionalFactor.v, p.integrationTime.v, p.differentiationTime.v;
    var fi, fd := kp / ti * dt, kp * td / dt;
    FactorsOnFinite(p, Fin(frequency), fb, dt);
    ControlWithFiniteFactors(p, frequency, fb, fi, fd);
    var d := p.targetFrequency.v - frequency;
    LawOnFactors(kp, ti, td, dt, d, fb.delta.v, fb.integrationComponent.v);
    var r := CalculateControl(p, Fin(frequency), fb, Fin(dt));
    var law := PidLawReal(kp, ti, td, dt, d, fb.delta.v, fb.integrationComponent.v);
    assert r.0 == Fin(law.0);
    assert r.1 == Feedback(Fin(d), Fin(law.1));
  }

  /**
   * An infinite integration time switches integral action off: the integral
   * component is carried over unchanged, whatever the previous delta.
   */
  lemma InfiniteIntegrationTimeHoldsIntegral(p: ControlParams, frequency: F32, fb: Feedback, dt: F32)
    requires p.integrationTime == PosInf && p.proportionalFactor.Fin? && dt.Fin?
    requires FeedbackFinite(fb)
    ensures CalculateControl(p, frequency, fb, dt).1.integrationComponent == fb.integrationComponent
  {
    assert Div(p.proportionalFactor, p.integrationTime) == Fin(0.0);
  }

  /**
   * A degenerate parameter, such as a zero integration time, cannot poison
   * later cycles: its non-finite integral is stored as 0.
   */
  lemma ZeroIntegrationTimeIsSanitised(p: ControlParams, frequency: F32, fb: Feedback, dt: F32)
    requires p.integrationTime == Fin(0.0) && p.proportionalFactor.Fin? && p.proportionalFactor.v > 0.0
    requires dt.Fin? && dt.v > 0.0 && fb.delta == Fin(0.0) && fb.integrationComponent.Fin?
    ensures CalculateControl(p, frequency, fb, dt).1.integrationComponent == Fin(0.0)
  {
    assert Div(p.proportionalFactor, p.integrationTime) == PosInf;
    assert Mul(PosInf, dt) == PosInf;
    assert Mul(PosInf, fb.delta) == NaN;
  }

  /** What the controller runs, in order, within one report interval. */
  datatype Phase = Read | Control

  /** `control_frequency` control phases, each after `reads_per_bin` read phases. */
  function Schedule(controlFrequency: nat, readsPerBin: nat): (s: seq<Phase>)
  {
    if controlFrequency == 0 then []
    else Schedule(controlFrequency - 1, readsPerBin) + CyclePhases(readsPerBin)
  }

  /** One control cycle: `reads_per_bin` read phases, then the control phase. */
  function CyclePhases(readsPerBin: nat): (s: seq<Phase>)
    ensures |s| == readsPerBin + 1 && s[readsPerBin] == Control
    ensures forall k :: 0 <= k < readsPerBin ==> s[k] == Read
  {
    seq(readsPerBin, _ => Read) + [Control]
  }

  /** The index of the `k`-th phase of the `c`-th control cycle. */
  function PhaseIndex(c: nat, k: nat, readsPerBin: nat): nat {
    c * (readsPerBin + 1) + k
  }

  /**
   * The schedule has `control_frequency * (reads_per_bin + 1)` phases; in
   * every control cycle the `reads_per_bin` reads come first and the control
   * phase last.
   */
  lemma {:induction false} ScheduleShape(cf: nat, rpb: nat)
    ensures |Schedule(cf, rpb)| == cf * (rpb + 1)
    ensures forall c, k :: 0 <= c < cf && 0 <= k <= rpb ==>
      && PhaseIndex(c, k, rpb) < |Schedule(cf, rpb)|
      && Schedule(cf, rpb)[PhaseIndex(c, k, rpb)] == if k == rpb then Control else Read
  {
    ScheduleLength(cf, rpb);
    forall c, k | 0 <= c < cf && 0 <= k <= rpb
      ensures PhaseIndex(c, k, rpb) < |Schedule(cf, rpb)|
      ensures Schedule(cf, rpb)[PhaseIndex(c, k, rpb)] == if k == rpb then Control else Read
    {
      ScheduleAt(cf, rpb, c, k);
    }
  }

  lemma {:induction false} ScheduleLength(cf: nat, rpb: nat)
    ensures |Schedule(cf, rpb)| == cf * (rpb + 1)
  {
    if cf > 0 {
      ScheduleLength(cf - 1, rpb);
      MulSucc(cf - 1, rpb + 1);
    }
  }

  /** One phase of the schedule, by induction on the number of control cycles. */
  lemma {:induction false} ScheduleAt(cf: nat, rpb: nat, c: nat, k: nat)
    requires c < cf && k <= rpb
    ensures PhaseIndex(c, k, rpb) < |Schedule(cf, rpb)|
    ensures Schedule(cf, rpb)[PhaseIndex(c, k, rpb)] == if k == rpb then Control else Read
  {
    var prev := Schedule(cf - 1, rpb);
    var i := PhaseIndex(c, k, rpb);
    ScheduleLength(cf - 1, rpb);
    ScheduleLength(cf, rpb);
    MulSucc(cf - 1, rpb + 1);
    if c < cf - 1 {
      ScheduleAt(cf - 1, rpb, c, k);
      assert Schedule(cf, rpb)[i] == prev[i];
    } else {
      assert i == |prev| + k;
    }
  }

  lemma MulSucc(a: nat, n: nat)
    ensures (a + 1) * n == a * n + n
  {
  }

  /** `u32` wraps modulo this. */
  const U32: nat := 0x1_0000_0000

  /** `Duration::SECOND` in nanoseconds. */
  const NanosPerSecond: nat := 1000000000

  /**
   * The period of `run`'s timer in nanoseconds, `Duration::SECOND /
   * read_frequency`, where `read_frequency = control_frequency *
   * reads_per_bin` is a `u32` product as a release build computes it.
   * `None` is the panic of a division by a zero `read_frequency`.
   */
  function ReadInterval(o: ControllerOptions): (r: Option<nat>)
    ensures r.None? <==> (o.controlFrequency * o.readsPerBin) % U32 == 0
    ensures r.Some? ==> o.controlFrequency > 0 && o.readsPerBin > 0
    ensures r.Some? ==> var f := (o.controlFrequency * o.readsPerBin) % U32;
      r.value * f <= NanosPerSecond < (r.value + 1) * f
    ensures 0 < o.controlFrequency * o.readsPerBin < U32 ==>
      r == Some(NanosPerSecond / (o.controlFrequency * o.readsPerBin))
  {
    var p := o.controlFrequency * o.readsPerBin;
    var f := p % U32;
    if f == 0 then
      None
    else
      assert p != 0;
      DivBracket(NanosPerSecond, f);
      Some(NanosPerSecond / f)
  }

  /** The quotient is the largest multiple count of `b` that fits in `a`. */
  lemma DivBracket(a: nat, b: nat)
    requires b > 0
    ensures (a / b) * b <= a < (a / b + 1) * b
  {
    var q, m := a / b, a % b;
    assert a == q * b + m && m < b;
    assert (q + 1) * b == q * b + b;
  }

  /**
   * What the control cycles of an interval have left so far: the detector,
   * the kept feedback, the input registers, the number of control phases
   * run and whether the last of them panicked.
   */
  datatype Run = Run(detector: Counter, feedback: Feedback, input: seq<F32>, cycles: nat, panicked: bool)

  /**
   * The effect of one `control_phase` on `s`, given the holding registers
   * and whether the PWM update succeeds: the window rotates, the input
   * registers receive the frequency and the limited signal, and the new
   * feedback is kept only when the duty cycle is a number and the PWM
   * update succeeds.  A NaN duty cycle panics.
   */
  function ControlStep(s: Run, holding: seq<F32>, pwmOk: bool, o: ControllerOptions): (r: Run)
    requires |s.detector.bins| > 0 && |holding| == 4
    ensures |r.detector.bins| == |s.detector.bins| && r.detector.isClose == s.detector.isClose
    ensures Sum(r.detector.bins) == Sum(s.detector.bins) - s.detector.bins[0]
    ensures r.cycles == s.cycles + 1 && |r.input| == 2
    ensures r.panicked <==> CalculateControl(ParamsOf(holding), r.input[0], s.feedback, IntervalRotateOnce(o)).0.NaN?
    ensures r.panicked || !pwmOk ==> r.feedback == s.feedback
    ensures FeedbackFinite(s.feedback) ==> FeedbackFinite(r.feedback)
  {
    var frequency := CalculateFrequency(s.detector.bins, o);
    var control := CalculateControl(ParamsOf(holding), frequency, s.feedback, IntervalRotateOnce(o));
    var duty := Limit(control.0, PwmMin, PwmMax);
    Run(Counter(s.detector.isClose, Rotate(s.detector.bins, 0)),
        if duty.NaN? || !pwmOk then s.feedback else control.1,
        [frequency, duty], s.cycles + 1, duty.NaN?)
  }

  /**
   * The control cycles of one tick of `run`, in order: each runs its read
   * phases, then a control phase; after a control phase that panics no
   * further cycle runs.
   */
  function Cycles(s: Run, adc: seq<seq<Option<nat>>>, pwmOk: seq<bool>, holding: seq<F32>, o: ControllerOptions): (r: Run)
    requires |s.detector.bins| > 0 && |holding| == 4 && |adc| == |pwmOk|
    requires forall c :: 0 <= c < |adc| ==> AdcBytes(adc[c])
    ensures |r.detector.bins| == |s.detector.bins|
    ensures s.panicked ==> r == s
    ensures s.cycles <= r.cycles <= s.cycles + |adc|
    ensures !r.panicked ==> r.cycles == s.cycles + |adc|
    ensures FeedbackFinite(s.feedback) ==> FeedbackFinite(r.feedback)
    decreases |adc|
  {
    if adc == [] then s
    else
      var n := |adc| - 1;
      var prev := Cycles(s, adc[..n], pwmOk[..n], holding, o);
      if prev.panicked then prev
      else ControlStep(prev.(detector := ObserveAll(prev.detector, Readings(adc[n]), o.thresholdClose, o.thresholdFar)),
                       holding, pwmOk[n], o)
  }

  /** A cycle after `c` cycles that have not panicked extends the run by its read phases and its control phase. */
  lemma CyclesAdvance(s: Run, adc: seq<seq<Option<nat>>>, pwmOk: seq<bool>, holding: seq<F32>, o: ControllerOptions,
                      c: nat, st: Run)
    requires |s.detector.bins| > 0 && |holding| == 4 && |adc| == |pwmOk| && c < |adc|
    requires forall k :: 0 <= k < |adc| ==> AdcBytes(adc[k])
    requires st == Cycles(s, adc[..c], pwmOk[..c], holding, o) && !st.panicked
    ensures Cycles(s, adc[..c + 1], pwmOk[..c + 1], holding, o)
         == ControlStep(st.(detector := ObserveAll(st.detector, Readings(adc[c]), o.thresholdClose, o.thresholdFar)),
                        holding, pwmOk[c], o)
  {
    assert adc[..c + 1][..c] == adc[..c];
    assert pwmOk[..c + 1][..c] == pwmOk[..c];
  }

  /** A run that has panicked after `c` cycles, or has run them all, is the whole interval's run. */
  lemma CyclesDone(s: Run, adc: seq<seq<Option<nat>>>, pwmOk: seq<bool>, holding: seq<F32>, o: ControllerOptions, c: nat)
    requires |s.detector.bins| > 0 && |holding| == 4 && |adc| == |pwmOk| && c <= |adc|
    requires forall k :: 0 <= k < |adc| ==> AdcBytes(adc[k])
    requires Cycles(s, adc[..c], pwmOk[..c], holding, o).panicked || c == |adc|
    ensures Cycles(s, adc, pwmOk, holding, o) == Cycles(s, adc[..c], pwmOk[..c], holding, o)
  {
    if c == |adc| {
      assert adc[..c] == adc && pwmOk[..c] == pwmOk;
    } else {
      CyclesStopAtPanic(s, adc, pwmOk, holding, o, c);
    }
  }

  /** Once a cycle has panicked, the cycles after it change nothing. */
  lemma {:induction false} CyclesStopAtPanic(s: Run, adc: seq<seq<Option<nat>>>, pwmOk: seq<bool>, holding: seq<F32>,
                                             o: ControllerOptions, k: nat)
    requires |s.detector.bins| > 0 && |holding| == 4 && |adc| == |pwmOk| && k <= |adc|
    requires forall c :: 0 <= c < |adc| ==> AdcBytes(adc[c])
    requires Cycles(s, adc[..k], pwmOk[..k], holding, o).panicked
    ensures Cycles(s, adc, pwmOk, holding, o) == Cycles(s, adc[..k], pwmOk[..k], holding, o)
    decreases |adc| - k
  {
    if k == |adc| {
      assert adc[..k] == adc && pwmOk[..k] == pwmOk;
    } else {
      var n := |adc| - 1;
      assert adc[..n][..k] == adc[..k];
      assert pwmOk[..n][..k] == pwmOk[..k];
      CyclesStopAtPanic(s, adc[..n], pwmOk[..n], holding, o, k);
      assert Cycles(s, adc[..n], pwmOk[..n], holding, o).panicked;
    }
  }

  /**
   * A zero integration time while the previous delta is 0 makes the signal
   * NaN (`+inf * 0`): the control phase panics and the feedback stays.
   */
  lemma ZeroIntegrationTimePanics(s: Run, holding: seq<F32>, pwmOk: bool, o: ControllerOptions)
    requires |s.detector.bins| > 0 && |holding| == 4 && o.controlFrequency > 0
    requires holding[1] == Fin(1.0) && holding[2] == Fin(0.0)
    requires s.feedback.delta == Fin(0.0) && s.feedback.integrationComponent.Fin?
    ensures ControlStep(s, holding, pwmOk, o).panicked
    ensures ControlStep(s, holding, pwmOk, o).feedback == s.feedback
  {
    var dt := IntervalRotateOnce(o);
    assert dt.Fin? && dt.v > 0.0;
    assert Div(holding[1], holding[2]) == PosInf;
    assert Mul(PosInf, dt) == PosInf;
    assert Mul(PosInf, s.feedback.delta) == NaN;
  }


  class Controller {
    const options: ControllerOptions
    const registers: PidRegisters.Registers
    var revolutions: seq<nat>
    var isClose: bool
    var feedback: Feedback

    ghost predicate Valid()
      reads this, registers
    {
      && |revolutions| == options.timeWindowBins > 0
      && registers.Valid()
      && FeedbackFinite(feedback)
    }

    function Detector(): Counter
      reads this
    {
      Counter(isClose, revolutions)
    }

    /** `new`: an empty window of `time_window_bins` bins, far state, zero feedback. */
    constructor (options: ControllerOptions, registers: PidRegisters.Registers)
      requires options.timeWindowBins > 0 && registers.Valid()
      ensures Valid()
      ensures this.options == options && this.registers == registers
      ensures revolutions == Zeros(options.timeWindowBins) && !isClose
      ensures feedback == Feedback(Fin(0.0), Fin(0.0))
    {
      this.options := options;
      this.registers := registers;
      revolutions := Zeros(options.timeWindowBins);
      isClose := false;
      feedback := Feedback(Fin(0.0), Fin(0.0));
    }

    /**
     * `read_phase`: a failed ADC read returns an error before anything is
     * touched; otherwise the reading goes through the edge detector.
     */
    method ReadPhase(adc: Option<nat>) returns (r: Result<(), Error>)
      requires Valid() && (adc.Some? ==> adc.value <= 255)
      modifies this
      ensures Valid() && feedback == old(feedback)
      ensures adc.None? ==> r == Err(AdcReadFailed) && Detector() == old(Detector())
      ensures adc.Some? ==>
        && r == Ok(())
        && Detector() == Observe(old(Detector()), Normalized(adc.value), options.thresholdClose, options.thresholdFar)
    {
      if adc.None? {
        return Err(AdcReadFailed);
      }
      var value := Normalized(adc.value);
      if value < options.thresholdClose && !isClose {
        isClose := true;
        revolutions := IncrementBack(revolutions);
      } else if value > options.thresholdFar && isClose {
        isClose := false;
      }
      r := Ok(());
    }

    /**
     * `control_phase`: the frequency of the window before it rotates, the
     * PID law on the holding registers, the limited signal written to the
     * input registers and then to the PWM (`duty`).  A NaN duty cycle makes
     * `Duration::mul_f32` panic before the PWM is touched; otherwise the
     * feedback is kept only when the PWM update succeeds.
     */
    method ControlPhase(pwmOk: bool) returns (duty: F32, r: Result<(), Error>)
      requires Valid()
      modifies this, registers.input
      ensures Valid() && isClose == old(isClose)
      ensures revolutions == Rotate(old(revolutions), 0)
      ensures registers.holding[..] == old(registers.holding[..])
      ensures var frequency := CalculateFrequency(old(revolutions), options);
        var control := CalculateControl(ParamsOf(old(registers.holding[..])), frequency,
                                        old(feedback), IntervalRotateOnce(options));
        && duty == Limit(control.0, PwmMin, PwmMax)
        && registers.input[..] == [frequency, duty]
        && (control.0.NaN? ==> r == Err(Panic) && feedback == old(feedback))
        && (!control.0.NaN? && pwmOk ==> r == Ok(()) && feedback == control.1)
        && (!control.0.NaN? && !pwmOk ==> r == Err(PwmUpdateFailed) && feedback == old(feedback))
    {
      var frequency := CalculateFrequency(revolutions, options);
      revolutions := Rotate(revolutions, 0);
      var read := registers.ReadHoldingRegisters(PidRegisters.Range(PidRegisters.Unbounded, PidRegisters.Unbounded));
      var holding := read.value;
      var params := ParamsOf(holding);
      var control := CalculateControl(params, frequency, feedback, IntervalRotateOnce(options));
      duty := Limit(control.0, PwmMin, PwmMax);
      var written := registers.WriteInputRegisters(PidRegisters.Range(PidRegisters.Unbounded, PidRegisters.Unbounded), [frequency, duty]);
      assert registers.input[..] == [frequency, duty];
      if duty.NaN? {
        return duty, Err(Panic);
      }
      if !pwmOk {
        return duty, Err(PwmUpdateFailed);
      }
      feedback := control.1;
      r := Ok(());
    }

    /**
     * One tick of `run`: `control_frequency` control cycles, each running
     * `reads_per_bin` read phases on its readings `adc[c]` and then a
     * control phase.  Failures are logged and skipped; a panic ends the run.
     * The tick starts only once `run` has its timer period.
     */
    method RunInterval(adc: seq<seq<Option<nat>>>, pwmOk: seq<bool>) returns (phases: seq<Phase>, panicked: bool)
      requires Valid() && ReadInterval(options).Some?
      requires |adc| == |pwmOk| == options.controlFrequency
      requires forall c :: 0 <= c < |adc| ==> |adc[c]| == options.readsPerBin && AdcBytes(adc[c])
      modifies this, registers.input
      ensures Valid()
      ensures registers.holding[..] == old(registers.holding[..])
      ensures var r := Cycles(Run(old(Detector()), old(feedback), old(registers.input[..]), 0, false),
                              adc, pwmOk, old(registers.holding[..]), options);
        && Detector() == r.detector && feedback == r.feedback && registers.input[..] == r.input
        && panicked == r.panicked && phases == Schedule(r.cycles, options.readsPerBin)
      ensures !panicked ==> phases == Schedule(options.controlFrequency, options.readsPerBin)
    {
      ghost var s0 := Run(old(Detector()), old(feedback), old(registers.input[..]), 0, false);
      ghost var holding := old(registers.holding[..]);
      ghost var st := s0;
      phases, panicked := [], false;
      var c := 0;
      while c < |adc| && !panicked
        invariant c <= |adc| && Valid() && registers.holding[..] == holding
        invariant st == Cycles(s0, adc[..c], pwmOk[..c], holding, options)
        invariant st == Run(Detector(), feedback, registers.input[..], c, panicked)
        invariant phases == Schedule(c, options.readsPerBin)
      {
        ghost var next := ControlStep(st.(detector := ObserveAll(st.detector, Readings(adc[c]), options.thresholdClose, options.thresholdFar)),
                                      holding, pwmOk[c], options);
        CyclesAdvance(s0, adc, pwmOk, holding, options, c, st);
        var r := ControlCycle(adc[c], pwmOk[c], st);
        st := next;
        phases := phases + CyclePhases(options.readsPerBin);
        panicked := r == Err(Panic);
        c := c + 1;
      }
      CyclesDone(s0, adc, pwmOk, holding, options, c);
    }

    /**
     * One control cycle of `run`: the read phases on `adc`, then a control
     * phase, from the state `before` describes.
     */
    method ControlCycle(adc: seq<Option<nat>>, pwmOk: bool, ghost before: Run) returns (r: Result<(), Error>)
      requires Valid() && AdcBytes(adc)
      requires before == Run(Detector(), feedback, registers.input[..], before.cycles, false)
      modifies this, registers.input
      ensures Valid() && registers.holding[..] == old(registers.holding[..])
      ensures ControlStep(before.(detector := ObserveAll(before.detector, Readings(adc), options.thresholdClose, options.thresholdFar)),
                          old(registers.holding[..]), pwmOk, options)
           == Run(Detector(), feedback, registers.input[..], before.cycles + 1, r == Err(Panic))
    {
      ReadPhases(adc);
      var _, result := ControlPhase(pwmOk);
      r := result;
    }

    /** The `reads_per_bin` read phases of one control cycle, in order. */
    method ReadPhases(adc: seq<Option<nat>>)
      requires Valid() && AdcBytes(adc)
      modifies this
      ensures Valid() && feedback == old(feedback)
      ensures Detector() == ObserveAll(old(Detector()), Readings(adc), options.thresholdClose, options.thresholdFar)
    {
      for k := 0 to |adc|
        invariant Valid() && feedback == old(feedback)
        invariant AdcBytes(adc[..k])
        invariant Detector() == ObserveAll(old(Detector()), Readings(adc[..k]), options.thresholdClose, options.thresholdFar)
      {
        assert adc[..k + 1] == adc[..k] + [adc[k]];
        ReadingsSnoc(adc[..k], adc[k]);
        if adc[k].Some? {
          ObserveAllSnoc(old(Detector()), Readings(adc[..k]), Normalized(adc[k].value), options.thresholdClose, options.thresholdFar);
        } else {
          assert Readings(adc[..k]) + [] == Readings(adc[..k]);
        }
        var _ := ReadPhase(adc[k]);
      }
      assert adc[..|adc|] == adc;
    }
  }
}
