/**
 * A 32-bit float seen as its four big-endian bytes (`to_be_bytes` /
 * `from_be_bytes`).  The bytes are the float: the conversions between an
 * `f32` and its byte representation are a bijection, so the register
 * encodings below are stated as byte permutations.
 */
module FloatBytes {

  newtype byte = x: int | 0 <= x < 256

  /** Four bytes, most significant first. */
  type Quad = s: seq<byte> | |s| == 4 witness [0, 0, 0, 0]

  /** The bytes of `+0.0`, also the all-zero default of a raw register. */
  const PositiveZero: Quad := [0, 0, 0, 0]

  /** The big-endian bytes of `f32::INFINITY` (0x7F800000). */
  const Infinity: Quad := [0x7F, 0x80, 0x00, 0x00]

  /** `to_le_bytes`: the same four bytes, least significant first. */
  function LittleEndian(be: Quad): (le: Quad)
    ensures forall i :: 0 <= i < 4 ==> le[i] == be[3 - i]
  {
    [be[3], be[2], be[1], be[0]]
  }

  /** Reading the little-endian bytes back gives the big-endian ones. */
  lemma LittleEndianInvolution(q: Quad)
    ensures LittleEndian(LittleEndian(q)) == q
  {
  }

  /** A big-endian 16-bit word of two bytes (section 4.2 of the MODBUS Application Protocol Specification V1.1b3). */
  function Word(hi: byte, lo: byte): (w: nat)
    ensures w < 0x1_0000
    ensures w / 256 == hi as nat && w % 256 == lo as nat
  {
    hi as nat * 256 + lo as nat
  }

  /** `to_be_bytes` of a 16-bit word. */
  function WordBytes(w: nat): (r: (byte, byte))
    requires w < 0x1_0000
    ensures Word(r.0, r.1) == w
  {
    ((w / 256) as byte, (w % 256) as byte)
  }

  /** Splitting a word into bytes inverts assembling it. */
  lemma WordBytesOfWord(hi: byte, lo: byte)
    ensures WordBytes(Word(hi, lo)) == (hi, lo)
  {
  }
}
