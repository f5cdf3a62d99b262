/**
 * The Modbus TCP service of the Linux PID program: input registers are read
 * as floats and sent as 16-bit words, and written holding registers arrive
 * as words and are regrouped into floats.  Words are big-endian (section
 * 4.2 of the MODBUS Application Protocol Specification V1.1b3); a float
 * takes two words, high word first.  The shared state's register access is
 * the caller's: the floats a read returns are a parameter, and the holding
 * write a request asks for is part of the result.
 */
module ModbusService {
  import opened Wrappers
  import opened FloatBytes

  /** A 16-bit register word. */
  type U16 = w: nat | w < 0x1_0000

  /** The big-endian bytes of the floats, one after another (`flat_map(to_be_bytes)`). */
  function FloatsToBytes(fs: seq<Quad>): (bs: seq<byte>)
    ensures |bs| == 4 * |fs|
  {
    if fs == [] then [] else fs[0] + FloatsToBytes(fs[1..])
  }

  /** `array_chunks::<4>().map(from_be_bytes)`: whole groups of four bytes; a shorter rest is dropped. */
  function BytesToFloats(bs: seq<byte>): (fs: seq<Quad>)
    ensures |fs| == |bs| / 4
  {
    if |bs| < 4 then [] else [bs[..4]] + BytesToFloats(bs[4..])
  }

  /** The big-endian bytes of the words, one after another. */
  function WordsToBytes(ws: seq<U16>): (bs: seq<byte>)
    ensures |bs| == 2 * |ws|
  {
    if ws == [] then [] else [WordBytes(ws[0]).0, WordBytes(ws[0]).1] + WordsToBytes(ws[1..])
  }

  /** `array_chunks::<2>().map(u16::from_be_bytes)`: whole pairs of bytes. */
  function BytesToWords(bs: seq<byte>): (ws: seq<U16>)
    ensures |ws| == |bs| / 2
  {
    if |bs| < 2 then [] else [Word(bs[0], bs[1]) as U16] + BytesToWords(bs[2..])
  }

  /** The words a `ReadInputRegisters` response carries for the floats read. */
  function EncodeFloats(fs: seq<Quad>): (ws: seq<U16>)
    ensures |ws| == 2 * |fs|
  {
    BytesToWords(FloatsToBytes(fs))
  }

  /** The floats a `WriteMultipleRegisters` request's words make. */
  function DecodeWords(ws: seq<U16>): (fs: seq<Quad>)
    ensures |fs| == |ws| / 2
  {
    BytesToFloats(WordsToBytes(ws))
  }

  lemma {:induction false} BytesToWordsAppend(a: seq<byte>, b: seq<byte>)
    requires |a| % 2 == 0
    ensures BytesToWords(a + b) == BytesToWords(a) + BytesToWords(b)
  {
    if |a| >= 2 {
      assert (a + b)[2..] == a[2..] + b;
      BytesToWordsAppend(a[2..], b);
    } else {
      assert a + b == b;
    }
  }

  lemma {:induction false} BytesToFloatsAppend(a: seq<byte>, b: seq<byte>)
    requires |a| % 4 == 0
    ensures BytesToFloats(a + b) == BytesToFloats(a) + BytesToFloats(b)
  {
    if |a| >= 4 {
      assert (a + b)[..4] == a[..4];
      assert (a + b)[4..] == a[4..] + b;
      BytesToFloatsAppend(a[4..], b);
    } else {
      assert a + b == b;
    }
  }

  lemma {:induction false} WordsToBytesAppend(a: seq<U16>, b: seq<U16>)
    ensures WordsToBytes(a + b) == WordsToBytes(a) + WordsToBytes(b)
  {
    if a != [] {
      assert (a + b)[0] == a[0];
      assert (a + b)[1..] == a[1..] + b;
      WordsToBytesAppend(a[1..], b);
    } else {
      assert a + b == b;
    }
  }

  /** Each float becomes two words, the high one (bytes 0 and 1) first. */
  lemma {:induction false} EncodeFloatsCons(fs: seq<Quad>)
    requires fs != []
    ensures EncodeFloats(fs) == [Word(fs[0][0], fs[0][1]) as U16, Word(fs[0][2], fs[0][3]) as U16] + EncodeFloats(fs[1..])
  {
    var q := fs[0];
    BytesToWordsAppend(q, FloatsToBytes(fs[1..]));
    assert q[2..][2..] == [];
  }

  /** The words of float `k` are at `2k` and `2k + 1`, high word first. */
  lemma {:induction false} EncodeFloatsLayout(fs: seq<Quad>, k: nat)
    requires k < |fs|
    ensures EncodeFloats(fs)[2 * k] == Word(fs[k][0], fs[k][1])
    ensures EncodeFloats(fs)[2 * k + 1] == Word(fs[k][2], fs[k][3])
  {
    EncodeFloatsCons(fs);
    if k > 0 {
      EncodeFloatsLayout(fs[1..], k - 1);
    }
  }

  lemma {:induction false} BytesToFloatsOfFloatsToBytes(fs: seq<Quad>)
    ensures BytesToFloats(FloatsToBytes(fs)) == fs
  {
    if fs != [] {
      var bs := FloatsToBytes(fs);
      assert bs[..4] == fs[0];
      assert bs[4..] == FloatsToBytes(fs[1..]);
      BytesToFloatsOfFloatsToBytes(fs[1..]);
    }
  }

  lemma {:induction false} FloatsToBytesOfBytesToFloats(bs: seq<byte>)
    requires |bs| % 4 == 0
    ensures FloatsToBytes(BytesToFloats(bs)) == bs
  {
    if |bs| >= 4 {
      FloatsToBytesOfBytesToFloats(bs[4..]);
      assert BytesToFloats(bs)[1..] == BytesToFloats(bs[4..]);
      assert bs == bs[..4] + bs[4..];
    }
  }

  lemma {:induction false} WordsToBytesOfBytesToWords(bs: seq<byte>)
    requires |bs| % 2 == 0
    ensures WordsToBytes(BytesToWords(bs)) == bs
  {
    if |bs| >= 2 {
      WordsToBytesOfBytesToWords(bs[2..]);
      WordBytesOfWord(bs[0], bs[1]);
      assert BytesToWords(bs)[1..] == BytesToWords(bs[2..]);
      assert bs == [bs[0], bs[1]] + bs[2..];
    }
  }

  lemma {:induction false} BytesToWordsOfWordsToBytes(ws: seq<U16>)
    ensures BytesToWords(WordsToBytes(ws)) == ws
  {
    if ws != [] {
      var bs := WordsToBytes(ws);
      assert bs[2..] == WordsToBytes(ws[1..]);
      BytesToWordsOfWordsToBytes(ws[1..]);
    }
  }

  /** Decoding the words of a read response gives back the floats read, byte for byte. */
  lemma DecodeEncode(fs: seq<Quad>)
    ensures DecodeWords(EncodeFloats(fs)) == fs
  {
    var bs := FloatsToBytes(fs);
    assert |bs| == 2 * (2 * |fs|);
    WordsToBytesOfBytesToWords(bs);
    assert WordsToBytes(EncodeFloats(fs)) == bs;
    BytesToFloatsOfFloatsToBytes(fs);
  }

  /** An even number of words is exactly the encoding of the floats it decodes to. */
  lemma EncodeDecode(ws: seq<U16>)
    requires |ws| % 2 == 0
    ensures EncodeFloats(DecodeWords(ws)) == ws
  {
    FloatsToBytesOfBytesToFloats(WordsToBytes(ws));
    BytesToWordsOfWordsToBytes(ws);
  }

  /** A trailing odd word makes no float: it is dropped. */
  lemma TrailingWordDropped(ws: seq<U16>, w: U16)
    requires |ws| % 2 == 0
    ensures DecodeWords(ws + [w]) == DecodeWords(ws)
  {
    WordsToBytesAppend(ws, [w]);
    BytesToFloatsAppend(WordsToBytes(ws), WordsToBytes([w]));
  }

  /** The requests the service distinguishes; any other kind is `OtherRequest`. */
  datatype Request =
    | ReadInputRegisters(addr: U16, count: U16)
    | WriteMultipleRegisters(addr: U16, values: seq<U16>)
    | OtherRequest(functionCode: nat)

  datatype Response =
    | ReadInputRegistersResponse(words: seq<U16>)
    | WriteMultipleRegistersResponse(addr: U16, count: U16)

  /** Exception 01, ILLEGAL FUNCTION (section 7 of the MODBUS Application Protocol Specification V1.1b3). */
  datatype Exception = IllegalFunction

  function ExceptionCode(e: Exception): nat {
    match e
    case IllegalFunction => 0x01
  }

  /** The holding write a request asks of the shared state: floats from `addr` on. */
  datatype HoldingWrite = HoldingWrite(addr: U16, floats: seq<Quad>)

  /**
   * `PidService::call`.  `inputFloats` is what the state returns for the
   * read's `addr` and `count`.  A write answers with its address and the
   * number of words received (`values.len() as u16`), even when the last
   * word made no float.
   */
  function Call(req: Request, inputFloats: seq<Quad>): (r: (Result<Response, Exception>, Option<HoldingWrite>))
    ensures req.ReadInputRegisters? ==>
      && r.1.None? && r.0.Ok? && r.0.value.ReadInputRegistersResponse?
      && |r.0.value.words| == 2 * |inputFloats|
      && DecodeWords(r.0.value.words) == inputFloats
    ensures req.WriteMultipleRegisters? ==>
      && r.0 == Ok(WriteMultipleRegistersResponse(req.addr, |req.values| % 0x1_0000))
      && r.1.Some? && r.1.value.addr == req.addr
      && |r.1.value.floats| == |req.values| / 2
      && EncodeFloats(r.1.value.floats) == req.values[..|req.values| / 2 * 2]
    ensures req.OtherRequest? ==> r == (Err(IllegalFunction), None)
  {
    match req
    case ReadInputRegisters(_, _) =>
      DecodeEncode(inputFloats);
      (Ok(ReadInputRegistersResponse(EncodeFloats(inputFloats))), None)
    case WriteMultipleRegisters(addr, values) =>
      WriteDecodesEvenPrefix(values);
      (Ok(WriteMultipleRegistersResponse(addr, |values| % 0x1_0000)), Some(HoldingWrite(addr, DecodeWords(values))))
    case OtherRequest(_) =>
      (Err(IllegalFunction), None)
  }

  /** The floats of a write are those of its longest even prefix of words. */
  lemma WriteDecodesEvenPrefix(ws: seq<U16>)
    ensures EncodeFloats(DecodeWords(ws)) == ws[..|ws| / 2 * 2]
  {
    var even := ws[..|ws| / 2 * 2];
    if |ws| % 2 == 1 {
      assert ws == even + [ws[|ws| - 1]];
      TrailingWordDropped(even, ws[|ws| - 1]);
    } else {
      assert even == ws;
    }
    EncodeDecode(even);
  }

  /** Writing the words a read produced stores exactly the floats that were read. */
  lemma ReadThenWriteRoundTrip(addr: U16, count: U16, fs: seq<Quad>)
    ensures Call(WriteMultipleRegisters(addr, Call(ReadInputRegisters(addr, count), fs).0.value.words), []).1
         == Some(HoldingWrite(addr, fs))
  {
  }
}
