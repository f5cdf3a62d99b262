/**
 * The bare-metal register bank: every register is a `FloatCDAB`, the four
 * bytes of a float stored with its two 16-bit words swapped, so that a
 * Modbus master reading the words in order sees the low word first.
 */
module BmRegisters {
  import opened FloatBytes
  import opened PidRegisters

  /**
   * `From<f32> for FloatCDAB`: big-endian bytes [a, b, c, d] are stored as
   * [c, d, a, b], the low word before the high word.
   */
  function Encode(value: Quad): (raw: Quad)
    ensures raw[..2] == value[2..] && raw[2..] == value[..2]
  {
    [value[2], value[3], value[0], value[1]]
  }

  /** `From<FloatCDAB> for f32`: raw [c, d, a, b] is the float with bytes [a, b, c, d]. */
  function Decode(raw: Quad): (value: Quad)
    ensures value[..2] == raw[2..] && value[2..] == raw[..2]
  {
    [raw[2], raw[3], raw[0], raw[1]]
  }

  lemma DecodeEncode(value: Quad)
    ensures Decode(Encode(value)) == value
  {
  }

  lemma EncodeDecode(raw: Quad)
    ensures Encode(Decode(raw)) == raw
  {
  }

  /** Distinct floats are stored differently: the encoding loses nothing. */
  lemma EncodeInjective(x: Quad, y: Quad)
    requires Encode(x) == Encode(y)
    ensures x == y
  {
    DecodeEncode(x);
    DecodeEncode(y);
  }

  /** The derived default, four zero bytes, reads as `+0.0`. */
  lemma DefaultIsPositiveZero()
    ensures Decode([0, 0, 0, 0]) == PositiveZero
  {
  }

  class Registers {
    var input: array<Quad>
    var holding: array<Quad>

    ghost predicate Valid()
      reads this
    {
      input.Length == InputCount && holding.Length == HoldingCount && input != holding
    }

    /** `new`: every register is the zero default except `IntegrationTime`, which is `+inf`. */
    constructor ()
      ensures Valid() && fresh(input) && fresh(holding)
      ensures input[..] == [[0, 0, 0, 0], [0, 0, 0, 0]]
      ensures holding[..] == [[0, 0, 0, 0], [0, 0, 0, 0], Encode(Infinity), [0, 0, 0, 0]]
    {
      input := new Quad[InputCount](_ => [0, 0, 0, 0]);
      holding := new Quad[HoldingCount](_ => [0, 0, 0, 0]);
      new;
      holding[HoldingOrdinal(IntegrationTime)] := Encode(Infinity);
      assert input[..] == [[0, 0, 0, 0], [0, 0, 0, 0]];
      assert holding[..] == [[0, 0, 0, 0], [0, 0, 0, 0], Encode(Infinity), [0, 0, 0, 0]];
    }

    method ReadInput(register: InputRegister) returns (value: Quad)
      requires Valid()
      ensures Encode(value) == input[InputOrdinal(register)]
    {
      value := Decode(input[InputOrdinal(register)]);
      EncodeDecode(input[InputOrdinal(register)]);
    }

    /** `write_input`: exactly one input register changes; holding is not touched. */
    method WriteInput(register: InputRegister, value: Quad)
      requires Valid()
      modifies input
      ensures Valid()
      ensures input[..] == old(input[..])[InputOrdinal(register) := Encode(value)]
    {
      input[InputOrdinal(register)] := Encode(value);
    }

    method ReadHolding(register: HoldingRegister) returns (value: Quad)
      requires Valid()
      ensures Encode(value) == holding[HoldingOrdinal(register)]
    {
      value := Decode(holding[HoldingOrdinal(register)]);
      EncodeDecode(holding[HoldingOrdinal(register)]);
    }

    /** `write_holding`: exactly one holding register changes; input is not touched. */
    method WriteHolding(register: HoldingRegister, value: Quad)
      requires Valid()
      modifies holding
      ensures Valid()
      ensures holding[..] == old(holding[..])[HoldingOrdinal(register) := Encode(value)]
    {
      holding[HoldingOrdinal(register)] := Encode(value);
    }

    /** A write followed by a read of the same register gives back the value written. */
    method WriteThenReadInput(register: InputRegister, other: InputRegister, value: Quad)
      returns (back: Quad, untouched: Quad)
      requires Valid() && other != register
      modifies input
      ensures back == value
      ensures Encode(untouched) == old(input[InputOrdinal(other)])
      ensures holding[..] == old(holding[..])
    {
      WriteInput(register, value);
      back := ReadInput(register);
      EncodeInjective(back, value);
      untouched := ReadInput(other);
    }

    /** The same for the holding registers. */
    method WriteThenReadHolding(register: HoldingRegister, other: HoldingRegister, value: Quad)
      returns (back: Quad, untouched: Quad)
      requires Valid() && other != register
      modifies holding
      ensures back == value
      ensures Encode(untouched) == old(holding[HoldingOrdinal(other)])
      ensures input[..] == old(input[..])
    {
      WriteHolding(register, value);
      back := ReadHolding(register);
      EncodeInjective(back, value);
      untouched := ReadHolding(other);
    }
  }

  /** A fresh bank reads `+0.0` everywhere except `+inf` for the integration time. */
  method FreshBankValues() returns (integrationTime: Quad, target: Quad, frequency: Quad)
    ensures integrationTime == Infinity && target == PositiveZero && frequency == PositiveZero
  {
    var r := new Registers();
    integrationTime := r.ReadHolding(IntegrationTime);
    EncodeInjective(integrationTime, Infinity);
    target := r.ReadHolding(TargetFrequency);
    EncodeInjective(target, PositiveZero);
    frequency := r.ReadInput(Frequency);
    EncodeInjective(frequency, PositiveZero);
  }
}
