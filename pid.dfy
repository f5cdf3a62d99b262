/**
 * The earlier PID controller revision: a read loop that counts revolutions
 * from 8-bit converter readings and an IO loop that, once per bin rotation,
 * turns the window into a frequency, runs a precomputed PID calculator on
 * the holding registers and drives the PWM.  The two loops share the
 * revolution window; each iteration is modelled as one atomic step.
 */
module Pid {
  import opened Wrappers
  import opened Float32
  import opened Revolutions
  import PidRegisters
  import Controller

  const PwmMin: real := 0.2
  const PwmMax: real := 1.0

  datatype PidSettings = PidSettings(
    thresholdClose: nat,           // u8
    thresholdFar: nat,             // u8
    revolutionBins: nat,
    rotateIntervalS: real)         // `revolution_bin_rotate_interval` in seconds

  /** The PID law with its gains folded into per-step factors. */
  datatype PidCalculator = PidCalculator(
    targetFrequency: F32,
    proportionalFactor: F32,
    integrationFactor: F32,
    differentiationFactor: F32)

  /** `from_state`: the four holding registers in order, with the factors precomputed. */
  function FromState(holding: seq<F32>, intervalS: F32): (c: PidCalculator)
    requires |holding| == 4
    ensures c.targetFrequency == holding[0] && c.proportionalFactor == holding[1]
  {
    var target, kp, ti, td := holding[0], holding[1], holding[2], holding[3];
    PidCalculator(target, kp, Mul(Div(kp, ti), intervalS), Div(Mul(kp, td), intervalS))
  }

  /** With finite gains and a nonzero step the factors are `Kp/Ti*dt` and `Kp*Td/dt`. */
  lemma FromStateFactors(holding: seq<F32>, dt: real)
    requires |holding| == 4 && holding[1].Fin? && holding[2].Fin? && holding[3].Fin?
    requires holding[2].v != 0.0 && dt != 0.0
    ensures FromState(holding, Fin(dt)).integrationFactor == Fin(holding[1].v / holding[2].v * dt)
    ensures FromState(holding, Fin(dt)).differentiationFactor == Fin(holding[1].v * holding[3].v / dt)
  {
  }

  /** An infinite integration time gives a zero integration factor. */
  lemma InfiniteIntegrationTimeHasNoFactor(holding: seq<F32>, dt: real)
    requires |holding| == 4 && holding[1].Fin? && holding[2] == PosInf
    ensures FromState(holding, Fin(dt)).integrationFactor == Fin(0.0)
  {
    assert Div(holding[1], PosInf) == Fin(0.0);
  }

  /** `calculate`: one PID step; the feedback that is kept is sanitised. */
  function Calculate(c: PidCalculator, frequency: F32, fb: Controller.Feedback): (r: (F32, Controller.Feedback))
    ensures Controller.FeedbackFinite(r.1)
    ensures frequency.Fin? && c.targetFrequency.Fin? ==> r.1.delta == Fin(c.targetFrequency.v - frequency.v)
  {
    var delta := Sub(c.targetFrequency, frequency);
    var proportional := Mul(c.proportionalFactor, delta);
    var integration := Add(fb.integrationComponent, Mul(c.integrationFactor, fb.delta));
    var differentiation := Mul(c.differentiationFactor, Sub(delta, fb.delta));
    var signal := Add(Add(proportional, integration), differentiation);
    (signal, Controller.Feedback(FiniteOrZero(delta), FiniteOrZero(integration)))
  }

  /**
   * On finite values the step is the law on the factors: the integral grows by
   * the integration factor times the previous delta, and the derivative term
   * is the differentiation factor times the change of delta.
   */
  lemma CalculateOnFiniteValues(c: PidCalculator, frequency: real, fb: Controller.Feedback)
    requires c.targetFrequency.Fin? && c.proportionalFactor.Fin?
    requires c.integrationFactor.Fin? && c.differentiationFactor.Fin?
    requires Controller.FeedbackFinite(fb)
    ensures Calculate(c, Fin(frequency), fb).1
         == Controller.Feedback(Fin(c.targetFrequency.v - frequency),
                                Fin(fb.integrationComponent.v + c.integrationFactor.v * fb.delta.v))
    ensures Calculate(c, Fin(frequency), fb).0
         == Fin(c.proportionalFactor.v * (c.targetFrequency.v - frequency)
                + (fb.integrationComponent.v + c.integrationFactor.v * fb.delta.v)
                + c.differentiationFactor.v * ((c.targetFrequency.v - frequency) - fb.delta.v))
  {
  }

  /**
   * The two revisions compute the same step: `PidCalculator` precomputed from
   * the holding registers agrees with the newer controller's
   * `calculate_control` for every input, special values included.
   */
  lemma SameLawAsController(holding: seq<F32>, frequency: F32, fb: Controller.Feedback, dt: F32)
    requires |holding| == 4
    ensures Calculate(FromState(holding, dt), frequency, fb)
         == Controller.CalculateControl(Controller.ParamsOf(holding), frequency, fb, dt)
  {
  }

  /** `revolutions_sum as f32 / all_bins_interval_s`, where the window lasts `interval_s * bins`. */
  function Frequency(sum: nat, s: PidSettings): F32 {
    Div(Fin(sum as real), Mul(Fin(s.rotateIntervalS), Fin(s.revolutionBins as real)))
  }

  /** For a positive interval and a non-empty window the frequency is revolutions per second. */
  lemma FrequencyIsRevolutionsPerSecond(sum: nat, s: PidSettings)
    requires s.rotateIntervalS > 0.0 && s.revolutionBins > 0
    ensures Frequency(sum, s) == Fin(sum as real / (s.rotateIntervalS * s.revolutionBins as real))
    ensures sum == 0 ==> Frequency(sum, s) == Fin(0.0)
  {
  }

  /** The two loops and the state they share. */
  class PidTask {
    const settings: PidSettings
    const registers: PidRegisters.Registers
    var revolutions: seq<nat>       // the shared ring buffer, oldest bin first
    var isClose: bool               // local to the read loop
    var feedback: Controller.Feedback // local to the IO loop

    ghost predicate Valid()
      reads this, registers
    {
      && |revolutions| == settings.revolutionBins > 0
      && settings.rotateIntervalS > 0.0
      && registers.Valid()
      && Controller.FeedbackFinite(feedback)
    }

    function Detector(): Counter
      reads this
    {
      Counter(isClose, revolutions)
    }

    /**
     * `run_pid`: a window of `revolution_bins` zero bins, far state and zero
     * feedback.  The IO loop's `interval` panics on a zero rotation period,
     * so a task that ever steps has a positive one.
     */
    constructor (settings: PidSettings, registers: PidRegisters.Registers)
      requires settings.revolutionBins > 0 && settings.rotateIntervalS > 0.0 && registers.Valid()
      ensures Valid()
      ensures this.settings == settings && this.registers == registers
      ensures revolutions == Zeros(settings.revolutionBins) && !isClose
      ensures feedback == Controller.Feedback(Fin(0.0), Fin(0.0))
    {
      this.settings := settings;
      this.registers := registers;
      revolutions := Zeros(settings.revolutionBins);
      isClose := false;
      feedback := Controller.Feedback(Fin(0.0), Fin(0.0));
    }

    /**
     * One iteration of `read_loop`: a failed read skips the iteration; a
     * reading goes through the edge detector on the 8-bit thresholds.
     */
    method ReadStep(reading: Option<nat>)
      requires Valid() && (reading.Some? ==> reading.value <= 255)
      modifies this
      ensures Valid() && feedback == old(feedback)
      ensures reading.None? ==> Detector() == old(Detector())
      ensures reading.Some? ==>
        Detector() == Observe(old(Detector()), reading.value as real,
                              settings.thresholdClose as real, settings.thresholdFar as real)
    {
      if reading.None? {
        return;
      }
      var value := reading.value;
      if value < settings.thresholdClose && !isClose {
        isClose := true;
        revolutions := IncrementBack(revolutions);
      } else if value > settings.thresholdFar && isClose {
        isClose := false;
      }
    }

    /** `read_loop` over a finite run of ticks: the successful readings, in order. */
    method ReadLoop(readings: seq<Option<nat>>)
      requires Valid() && forall i :: 0 <= i < |readings| && readings[i].Some? ==> readings[i].value <= 255
      modifies this
      ensures Valid() && feedback == old(feedback)
      ensures Detector() == ObserveAll(old(Detector()), Present(readings),
                                       settings.thresholdClose as real, settings.thresholdFar as real)
    {
      for i := 0 to |readings|
        invariant Valid() && feedback == old(feedback)
        invariant Detector() == ObserveAll(old(Detector()), Present(readings[..i]),
                                           settings.thresholdClose as real, settings.thresholdFar as real)
      {
        PresentSnoc(readings[..i], readings[i]);
        assert readings[..i + 1] == readings[..i] + [readings[i]];
        if readings[i].Some? {
          ObserveAllSnoc(old(Detector()), Present(readings[..i]), readings[i].value as real,
                         settings.thresholdClose as real, settings.thresholdFar as real);
        } else {
          assert Present(readings[..i + 1]) == Present(readings[..i]);
        }
        ReadStep(readings[i]);
      }
      assert readings[..|readings|] == readings;
    }

    /** `sum_and_push_new`: the sum of the window before it rotates in an empty bin. */
    method SumAndPushNew() returns (sum: nat)
      requires Valid()
      modifies this
      ensures Valid() && isClose == old(isClose) && feedback == old(feedback)
      ensures sum == Sum(old(revolutions))
      ensures revolutions == Rotate(old(revolutions), 0)
    {
      sum := Sum(revolutions);
      revolutions := Rotate(revolutions, 0);
    }

    /**
     * One iteration of `io_loop`: the frequency of the window, one PID step on
     * the holding registers, [frequency, limited signal] written to the input
     * registers, the limited signal sent to the PWM (`duty`).  The new feedback
     * is kept whether or not the PWM update succeeds.
     */
    method IoStep() returns (duty: F32)
      requires Valid()
      modifies this, registers.input
      ensures Valid() && isClose == old(isClose)
      ensures revolutions == Rotate(old(revolutions), 0)
      ensures registers.holding[..] == old(registers.holding[..])
      ensures var frequency := Frequency(Sum(old(revolutions)), settings);
        var step := Calculate(FromState(old(registers.holding[..]), Fin(settings.rotateIntervalS)),
                              frequency, old(feedback));
        && duty == Limit(step.0, PwmMin, PwmMax)
        && registers.input[..] == [frequency, duty]
        && feedback == step.1
      ensures registers.input[0]
           == Fin(Sum(old(revolutions)) as real / (settings.rotateIntervalS * settings.revolutionBins as real))
    {
      var sum := SumAndPushNew();
      var frequency := Frequency(sum, settings);
      assert frequency == Fin(sum as real / (settings.rotateIntervalS * settings.revolutionBins as real)) by {
        FrequencyIsRevolutionsPerSecond(sum, settings);
      }
      var read := registers.ReadHoldingRegisters(PidRegisters.Range(PidRegisters.Unbounded, PidRegisters.Unbounded));
      var holding := read.value;
      var calculator := FromState(holding, Fin(settings.rotateIntervalS));
      var step := Calculate(calculator, frequency, feedback);
      duty := Limit(step.0, PwmMin, PwmMax);
      var written := registers.WriteInputRegisters(PidRegisters.Range(PidRegisters.Unbounded, PidRegisters.Unbounded), [frequency, duty]);
      assert registers.input[..] == [frequency, duty];
      feedback := step.1;
    }
  }

  /** The readings of the ticks whose read succeeded, as reals. */
  function Present(readings: seq<Option<nat>>): (r: seq<real>)
    ensures |r| <= |readings|
  {
    if readings == [] then []
    else (if readings[0].Some? then [readings[0].value as real] else []) + Present(readings[1..])
  }

  lemma {:induction false} PresentSnoc(readings: seq<Option<nat>>, x: Option<nat>)
    ensures Present(readings + [x]) == Present(readings) + (if x.Some? then [x.value as real] else [])
    decreases |readings|
  {
    if readings == [] {
      assert [x][1..] == [];
    } else {
      var h := if readings[0].Some? then [readings[0].value as real] else [];
      var t := if x.Some? then [x.value as real] else [];
      assert (readings + [x])[0] == readings[0];
      assert (readings + [x])[1..] == readings[1..] + [x];
      assert Present(readings + [x]) == h + Present(readings[1..] + [x]);
      PresentSnoc(readings[1..], x);
      assert h + (Present(readings[1..]) + t) == (h + Present(readings[1..])) + t;
    }
  }

  /** Failed reads leave no trace: a run with no successful reading changes nothing. */
  lemma {:induction false} FailedReadsAreSkipped(readings: seq<Option<nat>>)
    requires forall i :: 0 <= i < |readings| ==> readings[i].None?
    ensures Present(readings) == []
    decreases |readings|
  {
    if readings != [] {
      FailedReadsAreSkipped(readings[1..]);
    }
  }
}
