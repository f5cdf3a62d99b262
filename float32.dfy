/**
 * Single-precision floats as extended reals: a finite value is kept exactly
 * (no rounding, no overflow), and the special values follow the IEEE 754
 * rules for infinities and NaN.  Signed zero is not distinguished.
 */
module Float32 {

  datatype F32 = Fin(v: real) | PosInf | NegInf | NaN

  predicate IsFinite(x: F32) { x.Fin? }

  function Neg(a: F32): F32 {
    match a
    case Fin(x) => Fin(-x)
    case PosInf => NegInf
    case NegInf => PosInf
    case NaN => NaN
  }

  function Add(a: F32, b: F32): (r: F32)
    ensures a.Fin? && b.Fin? ==> r == Fin(a.v + b.v)
    ensures a.NaN? || b.NaN? ==> r.NaN?
  {
    match (a, b)
    case (Fin(x), Fin(y)) => Fin(x + y)
    case (NaN, _) => NaN
    case (_, NaN) => NaN
    case (PosInf, NegInf) => NaN
    case (NegInf, PosInf) => NaN
    case (PosInf, _) => PosInf
    case (NegInf, _) => NegInf
    case (_, PosInf) => PosInf
    case (_, NegInf) => NegInf
  }

  function Sub(a: F32, b: F32): F32 { Add(a, Neg(b)) }

  /** The sign of a non-NaN value: -1, 0 or 1. */
  function Sign(a: F32): int
    requires !a.NaN?
  {
    match a
    case Fin(x) => if x < 0.0 then -1 else if x == 0.0 then 0 else 1
    case PosInf => 1
    case NegInf => -1
  }

  function InfOfSign(s: int): F32 {
    if s < 0 then NegInf else PosInf
  }

  function Mul(a: F32, b: F32): (r: F32)
    ensures a.Fin? && b.Fin? ==> r == Fin(a.v * b.v)
  {
    if a.NaN? || b.NaN? then NaN
    else if a.Fin? && b.Fin? then Fin(a.v * b.v)
    else if Sign(a) == 0 || Sign(b) == 0 then NaN      // infinity times zero
    else InfOfSign(Sign(a) * Sign(b))
  }

  function Div(a: F32, b: F32): (r: F32)
    ensures a.Fin? && b.Fin? && b.v != 0.0 ==> r == Fin(a.v / b.v)
    ensures a.Fin? && !b.Fin? && !b.NaN? ==> r == Fin(0.0)
  {
    if a.NaN? || b.NaN? then NaN
    else if a.Fin? && b.Fin? then
      if b.v != 0.0 then Fin(a.v / b.v)
      else if a.v == 0.0 then NaN                        // 0 / 0
      else InfOfSign(Sign(a))                            // x / +0
    else if a.Fin? then Fin(0.0)                         // finite / infinity
    else if b.Fin? then InfOfSign(Sign(a) * (if b.v < 0.0 then -1 else 1))
    else NaN                                             // infinity / infinity
  }

  /** IEEE `<`: false whenever an operand is NaN. */
  predicate Lt(a: F32, b: F32) {
    match (a, b)
    case (NaN, _) => false
    case (_, NaN) => false
    case (Fin(x), Fin(y)) => x < y
    case (NegInf, NegInf) => false
    case (NegInf, _) => true
    case (_, PosInf) => !a.PosInf?
    case (_, _) => false
  }

  /**
   * `finite_or_zero`: finite values pass unchanged, infinities and NaN
   * become zero, so the result is always finite.
   */
  function FiniteOrZero(x: F32): (r: F32)
    ensures r.Fin?
    ensures x.Fin? ==> r == x
    ensures !x.Fin? ==> r == Fin(0.0)
  {
    if x.Fin? then x else Fin(0.0)
  }

  function ClampReal(x: real, min: real, max: real): (r: real)
    requires min <= max
    ensures min <= r <= max
    ensures min <= x <= max ==> r == x
  {
    if x < min then min else if x > max then max else x
  }

  /** Rust's `f32::clamp` for ordered bounds: NaN stays NaN. */
  function Clamp(x: F32, min: real, max: real): (r: F32)
    requires min <= max
    ensures x.NaN? <==> r.NaN?
    ensures !x.NaN? ==> r.Fin? && min <= r.v <= max
  {
    match x
    case Fin(v) => Fin(ClampReal(v, min, max))
    case PosInf => Fin(max)
    case NegInf => Fin(min)
    case NaN => NaN
  }

  /** The dead-zone threshold `LIMIT_MIN_DEADZONE`. */
  const LimitMinDeadzone: real := 0.001

  /**
   * `limit`: a signal below the dead zone stops the actuator (0); anything
   * else is shifted up by `min` and then clamped to `[min, max]`.
   */
  function Limit(signal: F32, min: real, max: real): (r: F32)
    requires min <= max
    ensures Lt(signal, Fin(LimitMinDeadzone)) ==> r == Fin(0.0)
    ensures signal.Fin? && signal.v >= LimitMinDeadzone ==>
              r == Fin(ClampReal(signal.v + min, min, max))
    ensures r == Fin(0.0) || (r.Fin? && min <= r.v <= max) || (signal.NaN? && r.NaN?)
  {
    if Lt(signal, Fin(LimitMinDeadzone)) then Fin(0.0)
    else Clamp(Add(signal, Fin(min)), min, max)
  }

  /** Every non-NaN signal is limited to 0 or to a value in `[min, max]`. */
  lemma LimitRange(signal: F32, min: real, max: real)
    requires min <= max && !signal.NaN?
    ensures var r := Limit(signal, min, max); r.Fin? && (r.v == 0.0 || min <= r.v <= max)
  {
  }

  /** The three worked cases of the limiter with the PWM bounds 0.1 .. 1.0. */
  lemma LimitExamples()
    ensures Limit(Fin(0.0005), 0.1, 1.0) == Fin(0.0)
    ensures Limit(Fin(0.5), 0.1, 1.0) == Fin(0.6)
    ensures Limit(Fin(2.0), 0.1, 1.0) == Fin(1.0)
  {
  }

  /** The sanitiser maps NaN to zero and is idempotent. */
  lemma FiniteOrZeroIdempotent(x: F32)
    ensures FiniteOrZero(FiniteOrZero(x)) == FiniteOrZero(x)
    ensures FiniteOrZero(NaN) == Fin(0.0)
  {
  }
}
