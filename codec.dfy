/** The boundary to the 8b10b `Encoder(4, True)` and the four `Decoder(True)`
    blocks.  Their tables and running disparity belong to the code library
    and are not modelled: the framer only drives their k/d inputs and reads
    their 10-bit outputs (TX), or drives their 10-bit inputs and reads their
    k/d outputs (RX).  Where a property needs the codec, it takes an encoder
    and a decoder as function values and states as a requirement that the
    decoder undoes the encoder on valid characters (the 8b/10b code of
    clause 36.2.4 of IEEE 802.3). */
module Codec {
  import opened Signals

  /** One lane's character: the `k` (control) flag and the byte `d`. */
  datatype Char = Char(k: bool, d: bv8)

  /** One character per lane, lane 0 first. */
  type Chars = s: seq<Char> | |s| == NLanes witness [Char(false, 0), Char(false, 0), Char(false, 0), Char(false, 0)]

  /** One 10-bit line symbol per lane, lane 0 first. */
  type Symbols = s: seq<bv10> | |s| == NLanes witness [0, 0, 0, 0]

  /** K28.5, the comma character: `k = 1`, `d = 0xBC`. */
  const Comma: Char := Char(true, 0xBC)

  /** The value of an encoder lane that a comb block leaves undriven: the
      signals' reset value, `k = 0`, `d = 0`. */
  const Undriven: Char := Char(false, 0)

  /** The twelve bytes that have a control encoding (K28.0-K28.7, K23.7,
      K27.7, K29.7, K30.7). */
  predicate IsControlByte(d: bv8)
  {
    d in {0x1C, 0x3C, 0x5C, 0x7C, 0x9C, 0xBC, 0xDC, 0xFC, 0xF7, 0xFB, 0xFD, 0xFE}
  }

  /** A character the encoder can send: every data byte, and the control bytes. */
  predicate ValidChar(c: Char)
  {
    c.k ==> IsControlByte(c.d)
  }

  predicate ValidChars(cs: Chars)
  {
    forall i: Lane :: ValidChar(cs[i])
  }

  /** One cycle of the 4-lane encoder (its disparity state is whatever the
      function stands for in that cycle). */
  type Encoder = Chars -> Symbols

  /** One cycle of a lane decoder. */
  type Decoder = bv10 -> Char

  /** The assumption under which TX-to-RX properties are stated: every lane
      of a valid character group decodes back to what was encoded. */
  ghost predicate Inverts(enc: Encoder, dec: Decoder)
  {
    forall cs: Chars, i: Lane | ValidChars(cs) :: dec(enc(cs)[i]) == cs[i]
  }

  /** The four decoders, each fed its own lane. */
  function DecodeAll(dec: Decoder, s: Symbols): (r: Chars)
    ensures forall i: Lane :: r[i] == dec(s[i])
  {
    [dec(s[0]), dec(s[1]), dec(s[2]), dec(s[3])]
  }

  /** Under `Inverts`, decoding an encoded valid group lane by lane yields the group. */
  lemma DecodeEncoded(enc: Encoder, dec: Decoder, cs: Chars)
    requires Inverts(enc, dec) && ValidChars(cs)
    ensures DecodeAll(dec, enc(cs)) == cs
  {
    var r := DecodeAll(dec, enc(cs));
    forall i: Lane ensures r[i] == cs[i] {
      assert dec(enc(cs)[i]) == cs[i];
    }
  }
}
