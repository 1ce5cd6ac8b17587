/** Transmitter and receiver framing put back to back.  The line is taken
    to deliver the transmitted 40-bit group unchanged and with the bit-slip
    stage correctly aligned, so that the bit-slip output equals the transmit
    converter's input; the codec is any encoder/decoder pair in which the
    decoder undoes the encoder (`Codec.Inverts`).  Encoder and decoders are
    taken as functions of the current cycle: their pipeline latency is not
    modelled, so `tx_idle` is paired with the same cycle's word, and
    `rx_idle` with the same cycle's decoded word. */
module Link {
  import opened Signals
  import opened Codec
  import opened TxFramer
  import opened RxDeframer

  /** A word the encoder can carry: every lane flagged as control holds a
      control byte. */
  predicate ValidWord(k: bv4, d: bv32)
  {
    forall i: Lane :: Bit(k, i) ==> IsControlByte(Byte(d, i))
  }

  /** The 40-bit group the transmitter hands to its converter. */
  function Sent(enc: Encoder, x: TxInputs): bv40
  {
    ConverterData(x.idle, enc(EncoderInput(x.comma, x.k, x.d)))
  }

  /** What the four receive decoders output when their bit-slip stage
      shows the group `o`. */
  function Decoded(dec: Decoder, o: bv40): Chars
  {
    DecodeAll(dec, DecoderInputs(o))
  }

  /** Outside idle mode, the receiver's decoders see exactly the encoder's
      four output symbols. */
  lemma SlicesOfSent(enc: Encoder, x: TxInputs)
    requires !x.idle
    ensures DecoderInputs(Sent(enc, x)) == enc(EncoderInput(x.comma, x.k, x.d))
  {
    var s := enc(EncoderInput(x.comma, x.k, x.d));
    var r := DecoderInputs(Sent(enc, x));
    forall i: Lane ensures r[i] == s[i] {
      assert r[i] == Symbol(CatSymbols(s), i);
    }
  }

  /** A plain data word comes out of the receiver as it went in: `rx_k`
      equals `tx_k` and `rx_d` equals `tx_d`. */
  lemma DataRoundTrip(enc: Encoder, dec: Decoder, x: TxInputs)
    requires Inverts(enc, dec)
    requires !x.idle && !x.comma && ValidWord(x.k, x.d)
    ensures RxK(Decoded(dec, Sent(enc, x))) == x.k
    ensures RxD(Decoded(dec, Sent(enc, x))) == x.d
  {
    var cs := EncoderInput(false, x.k, x.d);
    assert ValidChars(cs);
    SlicesOfSent(enc, x);
    DecodeEncoded(enc, dec, cs);
    EncoderInputCarriesWord(x.k, x.d);
  }

  /** A group sent in comma mode raises `rx_comma`, whatever `tx_k` and `tx_d` are. */
  lemma CommaRoundTrip(enc: Encoder, dec: Decoder, x: TxInputs)
    requires Inverts(enc, dec)
    requires !x.idle && x.comma
    ensures RxComma(Decoded(dec, Sent(enc, x)))
  {
    var cs := EncoderInput(true, x.k, x.d);
    assert ValidChars(cs) by {
      assert IsControlByte(0xBC);
    }
    SlicesOfSent(enc, x);
    DecodeEncoded(enc, dec, cs);
  }

  /** A group sent in idle mode raises `rx_idle`, whatever the encoder outputs. */
  lemma IdleRoundTrip(enc: Encoder, x: TxInputs)
    requires x.idle
    ensures RxIdle(Sent(enc, x))
  {
  }

  /** Outside idle mode, `rx_comma` is raised exactly by comma mode and by
      the one data word that encodes the same four characters:
      `tx_k = 0b0001`, `tx_d = 0x000000BC`. */
  lemma CommaDetectedExactly(enc: Encoder, dec: Decoder, x: TxInputs)
    requires Inverts(enc, dec)
    requires !x.idle && (x.comma || ValidWord(x.k, x.d))
    ensures RxComma(Decoded(dec, Sent(enc, x))) <==> x.comma || (x.k == 1 && x.d == 0xBC)
  {
    if x.comma {
      CommaRoundTrip(enc, dec, x);
    } else {
      DataRoundTrip(enc, dec, x);
    }
  }
}
