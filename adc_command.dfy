/**
 * The one-byte command sent to the ADS7830 converter before each reading:
 * bit 7 selects single-ended inputs, bits 6-4 the channel, bit 3 the
 * internal reference and bit 2 the converter.
 */
module AdcCommand {

  const DefaultReadCommand: bv8 := 0x8C   // 0b1000_1100

  /**
   * The command as written: the default bits ANDed with the shifted channel.
   * The two operands never share a bit, so the byte sent is 0 for every
   * channel: single-ended mode, reference and converter are all off and the
   * channel bits are lost.
   */
  function ReadCommand(channel: bv8): (r: bv8)
    requires channel < 8
    ensures r == 0
  {
    DefaultReadCommand & (channel << 4)
  }

  /** The command with the default bits ORed in, as the bit layout describes. */
  function ReadCommandCorrected(channel: bv8): (r: bv8)
    requires channel < 8
    ensures r & 0x8C == 0x8C
    ensures (r & 0x70) >> 4 == channel
    ensures r & 0x03 == 0
  {
    DefaultReadCommand | (channel << 4)
  }
}
