/** The combinational part of the receive datapath of `KUSSerdes`
    (converter -> bit-slip -> decoders -> rx_data): slicing the bit-slip
    output into the four decoder inputs, packing the decoder outputs into
    `rx_k` / `rx_d`, and the `rx_idle` / `rx_comma` predicates. */
module RxDeframer {
  import opened Signals
  import opened Codec

  /** The receive comb outputs of one cycle. */
  datatype RxComb = RxComb(
    decoderIn: Symbols,    // decoders[i].input
    bitslipValue: bv6,     // rx_bitslip.value
    sinkValid: bool,       // rx_converter.sink.valid
    sourceReady: bool,     // rx_converter.source.ready
    k: bv4,                // rx_k
    d: bv32,               // rx_d
    idle: bool,            // rx_idle
    comma: bool)           // rx_comma

  /** Decoder i is fed bits [10i, 10i+10) of the 40-bit bit-slip output. */
  function DecoderInputs(o: bv40): (r: Symbols)
    ensures forall i: Lane :: r[i] == Symbol(o, i)
    ensures CatSymbols(r) == o
  {
    SlicesCover(0, 0, o);
    [Symbol(o, 0), Symbol(o, 1), Symbol(o, 2), Symbol(o, 3)]
  }

  /** `rx_k`: `Cat` of the four decoders' k flags. */
  function RxK(dec: Chars): (r: bv4)
    ensures forall i: Lane :: Bit(r, i) == dec[i].k
  {
    CatBits([dec[0].k, dec[1].k, dec[2].k, dec[3].k])
  }

  /** `rx_d`: `Cat` of the four decoders' bytes. */
  function RxD(dec: Chars): (r: bv32)
    ensures forall i: Lane :: Byte(r, i) == dec[i].d
  {
    CatBytes([dec[0].d, dec[1].d, dec[2].d, dec[3].d])
  }

  /** `rx_k` and `rx_d` together determine the four decoded characters. */
  lemma PackingIsInjective(a: Chars, b: Chars)
    requires RxK(a) == RxK(b) && RxD(a) == RxD(b)
    ensures a == b
  {
    forall i: Lane ensures a[i] == b[i] {
      assert Bit(RxK(a), i) == a[i].k && Bit(RxK(b), i) == b[i].k;
      assert Byte(RxD(a), i) == a[i].d && Byte(RxD(b), i) == b[i].d;
    }
  }

  /** `rx_idle`: the raw bit-slip output, before decoding, is zero; that is,
      every decoder is fed the all-zero symbol. */
  function RxIdle(o: bv40): (r: bool)
    ensures r <==> forall i: Lane :: DecoderInputs(o)[i] == 0
  {
    var s := DecoderInputs(o);
    assert (forall i: Lane :: s[i] == 0) ==> s == [0, 0, 0, 0] && CatSymbols(s) == 0;
    o == 0
  }

  /** `rx_comma`: lane 0 decodes to `d = 0xBC, k = 1` and lanes 1-3 to
      `d = 0x00, k = 0`.  Seen on the packed outputs, this is exactly
      `rx_k == 0b0001` and `rx_d == 0x000000BC`. */
  function RxComma(dec: Chars): (r: bool)
    ensures r <==> dec == [Comma, Undriven, Undriven, Undriven]
    ensures r <==> RxK(dec) == 1 && RxD(dec) == 0xBC
  {
    (dec[0].d == 0xBC && dec[0].k) &&
    (dec[1].d == 0x00 && !dec[1].k) &&
    (dec[2].d == 0x00 && !dec[2].k) &&
    (dec[3].d == 0x00 && !dec[3].k)
  }

  /** All receive comb outputs of one cycle, given the bit-slip output,
      the four decoders' outputs and the requested bit-slip value. */
  function Receive(o: bv40, dec: Chars, bitslipValue: bv6): (r: RxComb)
    ensures r.decoderIn == DecoderInputs(o) && r.bitslipValue == bitslipValue
    ensures r.sinkValid && r.sourceReady
    ensures r.k == RxK(dec) && r.d == RxD(dec)
    ensures r.idle <==> forall i: Lane :: r.decoderIn[i] == 0
    ensures r.comma <==> r.k == 1 && r.d == 0xBC
  {
    RxComb(DecoderInputs(o), bitslipValue, true, true, RxK(dec), RxD(dec), RxIdle(o), RxComma(dec))
  }
}
