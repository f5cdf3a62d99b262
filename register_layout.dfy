/**
 * The word layout of the Linux controller's Modbus register tables: every
 * float register takes two consecutive 16-bit words, so the register
 * addresses are multiples of two.
 */
module RegisterLayout {

  /** `sizeof(float) / sizeof(uint16_t)`. */
  const FloatPerU16: nat := 4 / 2

  datatype RegInput = RegFrequency | RegControlSignal
  datatype RegHolding = RegTargetFrequency | RegProportionalFactor | RegIntegrationTime | RegDifferentiationTime

  const NRegInput: nat := 2
  const NRegHolding: nat := 4
  const RegInputSizePerU16: nat := NRegInput * FloatPerU16
  const RegHoldingSizePerU16: nat := NRegHolding * FloatPerU16

  /** The position of a register in its enumeration. */
  function InputIndex(r: RegInput): nat {
    match r
    case RegFrequency => 0
    case RegControlSignal => 1
  }

  function HoldingIndex(r: RegHolding): nat {
    match r
    case RegTargetFrequency => 0
    case RegProportionalFactor => 1
    case RegIntegrationTime => 2
    case RegDifferentiationTime => 3
  }

  /** The word address of an input register: `2 * index`. */
  function InputOffset(r: RegInput): (o: nat)
    ensures o == FloatPerU16 * InputIndex(r)
  {
    match r
    case RegFrequency => 2 * 0
    case RegControlSignal => 2 * 1
  }

  function HoldingOffset(r: RegHolding): (o: nat)
    ensures o == FloatPerU16 * HoldingIndex(r)
  {
    match r
    case RegTargetFrequency => 2 * 0
    case RegProportionalFactor => 2 * 1
    case RegIntegrationTime => 2 * 2
    case RegDifferentiationTime => 2 * 3
  }

  const AllInputs: seq<RegInput> := [RegFrequency, RegControlSignal]
  const AllHoldings: seq<RegHolding> := [RegTargetFrequency, RegProportionalFactor, RegIntegrationTime, RegDifferentiationTime]

  /** `N_REG_INPUT` and `N_REG_HOLDING` count the members of the enumerations. */
  lemma CountsMatchEnumerations(i: RegInput, h: RegHolding)
    ensures |AllInputs| == NRegInput && i in AllInputs
    ensures |AllHoldings| == NRegHolding && h in AllHoldings
    ensures forall j, k :: 0 <= j < k < |AllHoldings| ==> AllHoldings[j] != AllHoldings[k]
  {
  }

  /** The words `[o, o + FloatPerU16)` a float register occupies. */
  predicate Occupies(offset: nat, word: nat) {
    offset <= word < offset + FloatPerU16
  }

  /** Distinct registers share no word, and each fits in its table. */
  lemma InputLayoutSound(a: RegInput, b: RegInput, w: nat)
    ensures InputOffset(a) + 1 < RegInputSizePerU16
    ensures a != b ==> !(Occupies(InputOffset(a), w) && Occupies(InputOffset(b), w))
  {
  }

  lemma HoldingLayoutSound(a: RegHolding, b: RegHolding, w: nat)
    ensures HoldingOffset(a) + 1 < RegHoldingSizePerU16
    ensures a != b ==> !(Occupies(HoldingOffset(a), w) && Occupies(HoldingOffset(b), w))
  {
  }

  /** The word counts a `modbus_mapping_new` call reserves for the two tables. */
  datatype Mapping = Mapping(holdingWords: nat, inputWords: nat)

  /** A mapping into which every float register's two words fit. */
  predicate HoldsAllRegisters(m: Mapping) {
    && (forall r: RegInput :: InputOffset(r) + FloatPerU16 <= m.inputWords)
    && (forall r: RegHolding :: HoldingOffset(r) + FloatPerU16 <= m.holdingWords)
  }

  /** The mapping `main` allocates: one word per register. */
  function MainMapping(): (m: Mapping)
    ensures m.holdingWords == NRegHolding && m.inputWords == NRegInput
  {
    Mapping(NRegHolding, NRegInput)
  }

  /**
   * That mapping is too small: the upper two holding registers and the
   * control-signal input register lie past its end.
   */
  lemma MainMappingTooSmall()
    ensures !HoldsAllRegisters(MainMapping())
    ensures HoldingOffset(RegDifferentiationTime) + 1 >= MainMapping().holdingWords
    ensures InputOffset(RegControlSignal) + 1 >= MainMapping().inputWords
  {
    assert HoldingOffset(RegDifferentiationTime) + FloatPerU16 > MainMapping().holdingWords;
  }

  /** The mapping `registers_init` allocates: two words per register. */
  function RegistersInitMapping(): (m: Mapping)
    ensures m.holdingWords == RegHoldingSizePerU16 && m.inputWords == RegInputSizePerU16
  {
    Mapping(RegHoldingSizePerU16, RegInputSizePerU16)
  }

  /** Two words per register is exactly enough: the tables hold every register and no spare words. */
  lemma RegistersInitMappingFits()
    ensures HoldsAllRegisters(RegistersInitMapping())
    ensures InputOffset(RegControlSignal) + FloatPerU16 == RegistersInitMapping().inputWords
    ensures HoldingOffset(RegDifferentiationTime) + FloatPerU16 == RegistersInitMapping().holdingWords
  {
    forall r: RegInput ensures InputOffset(r) + FloatPerU16 <= RegistersInitMapping().inputWords {
      InputLayoutSound(r, r, 0);
    }
    forall r: RegHolding ensures HoldingOffset(r) + FloatPerU16 <= RegistersInitMapping().holdingWords {
      HoldingLayoutSound(r, r, 0);
    }
  }
}
