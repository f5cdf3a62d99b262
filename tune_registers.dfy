/**
 * The register bank of the tuning firmware: the same word-swapped layout,
 * but built from the float's little-endian bytes.
 */
module TuneRegisters {
  import opened FloatBytes
  import BmRegisters

  datatype InputRegister = Frequency | ControlSignal | ValueMin | ValueMax
  datatype HoldingRegister = ControlSignal | ThresholdClose | ThresholdFar

  const InputCount: nat := 4
  const HoldingCount: nat := 3

  function InputOrdinal(r: InputRegister): (n: nat)
    ensures n < InputCount
  {
    match r
    case Frequency => 0
    case ControlSignal => 1
    case ValueMin => 2
    case ValueMax => 3
  }

  function HoldingOrdinal(r: HoldingRegister): (n: nat)
    ensures n < HoldingCount
  {
    match r
    case ControlSignal => 0
    case ThresholdClose => 1
    case ThresholdFar => 2
  }

  /** Distinct registers occupy distinct slots. */
  lemma OrdinalsInjective(a: InputRegister, b: InputRegister, c: HoldingRegister, d: HoldingRegister)
    ensures InputOrdinal(a) == InputOrdinal(b) ==> a == b
    ensures HoldingOrdinal(c) == HoldingOrdinal(d) ==> c == d
  {
  }

  /**
   * `From<f32> for FloatCDAB`: little-endian bytes [a, b, c, d] are stored
   * as [c, d, a, b].  In terms of the big-endian bytes that is [B, A, D, C].
   */
  function Encode(value: Quad): (raw: Quad)
  {
    var le := LittleEndian(value);
    [le[2], le[3], le[0], le[1]]
  }

  /** `From<FloatCDAB> for f32`: raw [c, d, a, b] is the float with little-endian bytes [a, b, c, d]. */
  function Decode(raw: Quad): (value: Quad)
  {
    LittleEndian([raw[2], raw[3], raw[0], raw[1]])
  }

  lemma DecodeEncode(value: Quad)
    ensures Decode(Encode(value)) == value
  {
  }

  lemma EncodeDecode(raw: Quad)
    ensures Encode(Decode(raw)) == raw
  {
  }

  /** For the same float this layout is the byte reversal of the big-endian one. */
  lemma ReversedBigEndianLayout(value: Quad)
    ensures Encode(value) == LittleEndian(BmRegisters.Encode(value))
    ensures Encode(value) == [value[1], value[0], value[3], value[2]]
  {
  }

  lemma EncodeInjective(x: Quad, y: Quad)
    requires Encode(x) == Encode(y)
    ensures x == y
  {
    DecodeEncode(x);
    DecodeEncode(y);
  }

  class Registers {
    var input: array<Quad>
    var holding: array<Quad>

    ghost predicate Valid()
      reads this
    {
      input.Length == InputCount && holding.Length == HoldingCount && input != holding
    }

    /** `new`: every register holds four zero bytes. */
    constructor ()
      ensures Valid() && fresh(input) && fresh(holding)
      ensures forall i :: 0 <= i < InputCount ==> input[i] == [0, 0, 0, 0]
      ensures forall i :: 0 <= i < HoldingCount ==> holding[i] == [0, 0, 0, 0]
    {
      input := new Quad[InputCount](_ => [0, 0, 0, 0]);
      holding := new Quad[HoldingCount](_ => [0, 0, 0, 0]);
    }

    /** `write_input`: exactly one input register changes. */
    method WriteInput(register: InputRegister, value: Quad)
      requires Valid()
      modifies input
      ensures Valid()
      ensures input[..] == old(input[..])[InputOrdinal(register) := Encode(value)]
    {
      input[InputOrdinal(register)] := Encode(value);
    }

    /** `read_holding`: the float stored in exactly that holding register. */
    method ReadHolding(register: HoldingRegister) returns (value: Quad)
      requires Valid()
      ensures Encode(value) == holding[HoldingOrdinal(register)]
    {
      value := Decode(holding[HoldingOrdinal(register)]);
      EncodeDecode(holding[HoldingOrdinal(register)]);
    }
  }

  /** Zero bytes decode to `+0.0`, so a fresh bank reads zero thresholds. */
  lemma DefaultIsPositiveZero()
    ensures Decode([0, 0, 0, 0]) == PositiveZero
  {
  }
}
