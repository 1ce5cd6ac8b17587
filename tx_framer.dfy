/** The combinational part of the transmit datapath of `KUSSerdes`
    (tx_data -> encoder -> 40-to-8 converter): the comma multiplexer in front
    of the encoder, the idle multiplexer behind it, the constant wiring of
    the converter handshake, and the training word sent on the clock pads. */
module TxFramer {
  import opened Signals
  import opened Codec

  /** What the application drives on the transmit side in one cycle. */
  datatype TxInputs = TxInputs(k: bv4, d: bv32, idle: bool, comma: bool)

  /** The transmit comb outputs of one cycle. */
  datatype TxComb = TxComb(
    encoderIn: Chars,      // encoder.k[i], encoder.d[i]
    encoderCe: bool,       // encoder.ce
    sinkValid: bool,       // tx_converter.sink.valid
    sinkData: bv40,        // tx_converter.sink.data
    sourceReady: bool)     // tx_converter.source.ready

  // ---------------------------------------------------------------------
  // Training clock

  /** 0b1111100000: five zero bits, then five one bits. */
  const ClockSymbol: bv10 := 0x3E0

  /** The word fed to the clock-pad converter: the clock symbol in each of
      the four 10-bit slots. */
  function ClockWord(): (w: bv40)
    ensures forall i: Lane :: Symbol(w, i) == ClockSymbol
  {
    ((ClockSymbol as bv40) << 30) | ((ClockSymbol as bv40) << 20) |
    ((ClockSymbol as bv40) << 10) | (ClockSymbol as bv40)
  }

  /** Read bit by bit from bit 0, the clock word is a square wave of period
      ten bits and duty cycle one half: line rate divided by ten. */
  lemma ClockWordIsSquareWave()
    ensures forall j: nat | j < 40 :: ((ClockWord() >> j) & 1 == 1) == (j % 10 >= 5)
  {
    assert ClockWord() == 0xF8_3E0F_83E0;
  }

  // ---------------------------------------------------------------------
  // Data path

  /** The encoder's k/d inputs.  In comma mode only lane 0 is assigned (to
      K28.5); lanes 1-3 are not assigned in that branch of the comb `If`, so
      they take their reset value.  Otherwise lane i gets `tx_k[i]` and
      `tx_d[8i:8i+8]`. */
  function EncoderInput(comma: bool, k: bv4, d: bv32): (r: Chars)
    ensures comma ==> r[0] == Comma && forall i: Lane :: i > 0 ==> r[i] == Undriven
    ensures !comma ==> forall i: Lane :: r[i].k == Bit(k, i) && r[i].d == Byte(d, i)
  {
    if comma then
      [Comma, Undriven, Undriven, Undriven]
    else
      [Char(Bit(k, 0), Byte(d, 0)), Char(Bit(k, 1), Byte(d, 1)),
       Char(Bit(k, 2), Byte(d, 2)), Char(Bit(k, 3), Byte(d, 3))]
  }

  /** In comma mode the application's k and d have no effect on the encoder. */
  lemma CommaIgnoresWord(k1: bv4, d1: bv32, k2: bv4, d2: bv32)
    ensures EncoderInput(true, k1, d1) == EncoderInput(true, k2, d2)
  {
  }

  /** Outside comma mode the encoder's lanes carry exactly the application's
      word: packing their k flags and bytes back gives `tx_k` and `tx_d`. */
  lemma EncoderInputCarriesWord(k: bv4, d: bv32)
    ensures var cs := EncoderInput(false, k, d);
      CatBits([cs[0].k, cs[1].k, cs[2].k, cs[3].k]) == k &&
      CatBytes([cs[0].d, cs[1].d, cs[2].d, cs[3].d]) == d
  {
    SlicesCover(k, d, 0);
  }

  /** The 40-bit group handed to the converter: all zeros when idle,
      otherwise the four encoder outputs with lane 0 in the low bits. */
  function ConverterData(idle: bool, encoderOut: Symbols): (r: bv40)
    ensures idle ==> r == 0
    ensures !idle ==> forall i: Lane :: Symbol(r, i) == encoderOut[i]
  {
    if idle then 0 else CatSymbols(encoderOut)
  }

  /** All transmit comb outputs of one cycle, given the application inputs,
      what the encoder outputs this cycle and the converter's `sink.ready`.
      The converter is always offered a word and is always drained; the
      encoder advances only when the converter takes a word. */
  function Transmit(x: TxInputs, encoderOut: Symbols, sinkReady: bool): (r: TxComb)
    ensures r.encoderIn == EncoderInput(x.comma, x.k, x.d)
    ensures r.encoderCe == sinkReady && r.sinkValid && r.sourceReady
    ensures x.idle ==> r.sinkData == 0
    ensures !x.idle ==> forall i: Lane :: Symbol(r.sinkData, i) == encoderOut[i]
  {
    TxComb(EncoderInput(x.comma, x.k, x.d), sinkReady, true, ConverterData(x.idle, encoderOut), true)
  }
}
