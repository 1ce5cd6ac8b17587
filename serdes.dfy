/** The clocked registers of `KUSSerdes` (the `self.sync` statements):
    the `tx_ready` and `rx_valid` latency shift registers and the register
    that holds the bit-slip stage's input.  `Next` is one clock edge on
    values and `Run` a sequence of edges from a given state; the class
    `KUSSerdes` keeps the registers as fields and advances them with `Step`. */
module Serdes {
  import opened Signals

  /** `tx_ready_latency`: the encoder's pipeline depth. */
  const TxReadyLatency: nat := 2

  /** `rx_valid_latency`: decoder, synchroniser and bit-slip stages. */
  const RxValidLatency: nat := 1 + 1 + 2

  /** What the sync block samples at one clock edge: the transmit
      converter's `sink.ready` and the receive converter's `source.valid`
      and `source.data`. */
  datatype SyncInputs = SyncInputs(txSinkReady: bool, rxSourceValid: bool, rxSourceData: bv40)

  /** The register values: `tx_ready_sr`, `rx_valid_sr`, `rx_bitslip.i`. */
  datatype Regs = Regs(txReadySr: seq<bool>, rxValidSr: seq<bool>, bitslipIn: bv40)

  /** Each shift register is `Signal(latency)`. */
  predicate WellFormed(r: Regs)
  {
    |r.txReadySr| == TxReadyLatency && |r.rxValidSr| == RxValidLatency
  }

  /** Every register at its reset value 0. */
  function Reset(): (r: Regs)
    ensures WellFormed(r) && Cleared(r) && r.bitslipIn == 0
  {
    Regs([false, false], [false, false, false, false], 0)
  }

  /** One clock edge.  Both shift registers take in their sampled bit; the
      bit-slip input is loaded only when the receive converter has a valid
      word, and holds its value otherwise. */
  function Next(r: Regs, x: SyncInputs): (r': Regs)
    ensures |r'.txReadySr| == |r.txReadySr| && |r'.rxValidSr| == |r.rxValidSr|
    ensures WellFormed(r) ==> WellFormed(r')
    ensures WellFormed(r) ==> r'.txReadySr[0] == x.txSinkReady && r'.rxValidSr[0] == x.rxSourceValid
    ensures forall j :: 0 < j < |r.txReadySr| ==> r'.txReadySr[j] == r.txReadySr[j - 1]
    ensures forall j :: 0 < j < |r.rxValidSr| ==> r'.rxValidSr[j] == r.rxValidSr[j - 1]
    ensures x.rxSourceValid ==> r'.bitslipIn == x.rxSourceData
    ensures !x.rxSourceValid ==> r'.bitslipIn == r.bitslipIn
  {
    Regs(ShiftIn(r.txReadySr, x.txSinkReady),
         ShiftIn(r.rxValidSr, x.rxSourceValid),
         if x.rxSourceValid then x.rxSourceData else r.bitslipIn)
  }

  /** The registers after one edge per element of `xs`, oldest first. */
  function Run(r: Regs, xs: seq<SyncInputs>): (r': Regs)
    ensures |r'.txReadySr| == |r.txReadySr| && |r'.rxValidSr| == |r.rxValidSr|
    ensures WellFormed(r) ==> WellFormed(r')
    decreases |xs|
  {
    if |xs| == 0 then r else Next(Run(r, xs[..|xs| - 1]), xs[|xs| - 1])
  }

  /** `tx_ready = tx_ready_sr[-1]`. */
  function TxReadyOf(r: Regs): (ready: bool)
    requires WellFormed(r)
    ensures ready == r.txReadySr[TxReadyLatency - 1]
  {
    Top(r.txReadySr)
  }

  /** `rx_valid = rx_valid_sr[-1]`. */
  function RxValidOf(r: Regs): (valid: bool)
    requires WellFormed(r)
    ensures valid == r.rxValidSr[RxValidLatency - 1]
  {
    Top(r.rxValidSr)
  }

  /** The `sink.ready` bits of a run, oldest first. */
  function Readies(xs: seq<SyncInputs>): (bs: seq<bool>)
    ensures |bs| == |xs| && forall t :: 0 <= t < |xs| ==> bs[t] == xs[t].txSinkReady
  {
    seq(|xs|, t requires 0 <= t < |xs| => xs[t].txSinkReady)
  }

  /** The `source.valid` bits of a run, oldest first. */
  function Valids(xs: seq<SyncInputs>): (bs: seq<bool>)
    ensures |bs| == |xs| && forall t :: 0 <= t < |xs| ==> bs[t] == xs[t].rxSourceValid
  {
    seq(|xs|, t requires 0 <= t < |xs| => xs[t].rxSourceValid)
  }

  /** Each shift register of `Run` is the delay line fed with its own
      input bit, edge after edge. */
  lemma {:induction false} RunShiftRegisters(r: Regs, xs: seq<SyncInputs>)
    ensures Run(r, xs).txReadySr == Feed(r.txReadySr, Readies(xs))
    ensures Run(r, xs).rxValidSr == Feed(r.rxValidSr, Valids(xs))
    decreases |xs|
  {
    if |xs| > 0 {
      var prefix := xs[..|xs| - 1];
      RunShiftRegisters(r, prefix);
      assert Readies(xs)[..|xs| - 1] == Readies(prefix);
      assert Valids(xs)[..|xs| - 1] == Valids(prefix);
    }
  }

  /** `tx_ready` and `rx_valid` after a run are the top bits of the two
      delay lines. */
  lemma OutputsAreTops(r0: Regs, xs: seq<SyncInputs>)
    requires WellFormed(r0)
    ensures TxReadyOf(Run(r0, xs)) == Top(Feed(r0.txReadySr, Readies(xs)))
    ensures RxValidOf(Run(r0, xs)) == Top(Feed(r0.rxValidSr, Valids(xs)))
  {
    RunShiftRegisters(r0, xs);
  }

  /** Registers whose two shift registers hold only zeros. */
  predicate Cleared(r: Regs)
  {
    WellFormed(r) &&
    (forall j :: 0 <= j < TxReadyLatency ==> !r.txReadySr[j]) &&
    (forall j :: 0 <= j < RxValidLatency ==> !r.rxValidSr[j])
  }

  /** From any cleared state, `tx_ready` follows `sink.ready` two edges late. */
  lemma TxReadyFrom(r0: Regs, xs: seq<SyncInputs>)
    requires Cleared(r0)
    ensures TxReadyOf(Run(r0, xs)) ==
      (|xs| >= TxReadyLatency && xs[|xs| - TxReadyLatency].txSinkReady)
  {
    var n := TxReadyLatency;
    var b := |xs| >= n && xs[|xs| - n].txSinkReady;
    TopOfSampled(r0.txReadySr, Readies(xs), n, b);
    OutputsAreTops(r0, xs);
  }

  /** From any cleared state, `rx_valid` follows `source.valid` four edges late. */
  lemma RxValidFrom(r0: Regs, xs: seq<SyncInputs>)
    requires Cleared(r0)
    ensures RxValidOf(Run(r0, xs)) ==
      (|xs| >= RxValidLatency && xs[|xs| - RxValidLatency].rxSourceValid)
  {
    var n := RxValidLatency;
    var b := |xs| >= n && xs[|xs| - n].rxSourceValid;
    TopOfSampled(r0.rxValidSr, Valids(xs), n, b);
    OutputsAreTops(r0, xs);
  }

  /** `tx_ready` after the edges `xs` since reset: the `sink.ready` sampled two edges
      ago, or 0 while fewer than two edges have passed. */
  lemma TxReadyOfHistory(xs: seq<SyncInputs>)
    ensures TxReadyOf(Run(Reset(), xs)) ==
      (|xs| >= TxReadyLatency && xs[|xs| - TxReadyLatency].txSinkReady)
  {
    TxReadyFrom(Reset(), xs);
  }

  /** `rx_valid` after the edges `xs` since reset: the `source.valid` sampled four edges
      ago, or 0 while fewer than four edges have passed. */
  lemma RxValidOfHistory(xs: seq<SyncInputs>)
    ensures RxValidOf(Run(Reset(), xs)) ==
      (|xs| >= RxValidLatency && xs[|xs| - RxValidLatency].rxSourceValid)
  {
    RxValidFrom(Reset(), xs);
  }

  /** `tx_ready` at cycle t + 2 is the converter's `sink.ready` at cycle t. */
  lemma TxReadyDelay(xs: seq<SyncInputs>, t: nat)
    requires t + TxReadyLatency <= |xs|
    ensures TxReadyOf(Run(Reset(), xs[..t + TxReadyLatency])) == xs[t].txSinkReady
  {
    TxReadyOfHistory(xs[..t + TxReadyLatency]);
  }

  /** `rx_valid` at cycle t + 4 is the converter's `source.valid` at cycle t. */
  lemma RxValidDelay(xs: seq<SyncInputs>, t: nat)
    requires t + RxValidLatency <= |xs|
    ensures RxValidOf(Run(Reset(), xs[..t + RxValidLatency])) == xs[t].rxSourceValid
  {
    RxValidOfHistory(xs[..t + RxValidLatency]);
  }

  /** Until the latency has elapsed after reset, `tx_ready` and `rx_valid`
      show the registers' reset value 0. */
  lemma QuietAfterReset(xs: seq<SyncInputs>)
    ensures |xs| < TxReadyLatency ==> !TxReadyOf(Run(Reset(), xs))
    ensures |xs| < RxValidLatency ==> !RxValidOf(Run(Reset(), xs))
  {
    TxReadyOfHistory(xs);
    RxValidOfHistory(xs);
  }

  /** The bit-slip input holds the data of the most recent valid word. */
  lemma {:induction false} BitslipInLatest(r: Regs, xs: seq<SyncInputs>, j: nat)
    requires j < |xs| && xs[j].rxSourceValid
    requires forall m :: j < m < |xs| ==> !xs[m].rxSourceValid
    ensures Run(r, xs).bitslipIn == xs[j].rxSourceData
    decreases |xs|
  {
    var prefix := xs[..|xs| - 1];
    if j < |xs| - 1 {
      BitslipInLatest(r, prefix, j);
    }
  }

  /** Without any valid word, the bit-slip input keeps its starting value. */
  lemma {:induction false} BitslipInUnloaded(r: Regs, xs: seq<SyncInputs>)
    requires forall m :: 0 <= m < |xs| ==> !xs[m].rxSourceValid
    ensures Run(r, xs).bitslipIn == r.bitslipIn
    decreases |xs|
  {
    if |xs| > 0 {
      BitslipInUnloaded(r, xs[..|xs| - 1]);
    }
  }

  /** The framing registers of one link endpoint. */
  class KUSSerdes {
    var txReadySr: seq<bool>
    var rxValidSr: seq<bool>
    var bitslipIn: bv40

    /** The inputs sampled at every clock edge since reset, oldest first. */
    ghost var history: seq<SyncInputs>

    function State(): Regs
      reads this
    {
      Regs(txReadySr, rxValidSr, bitslipIn)
    }

    ghost predicate Valid()
      reads this
    {
      State() == Run(Reset(), history)
    }

    /** Reset: all registers 0, no edge yet. */
    constructor ()
      ensures Valid() && history == [] && State() == Reset()
    {
      txReadySr := [false, false];
      rxValidSr := [false, false, false, false];
      bitslipIn := 0;
      history := [];
    }

    /** `tx_ready`: the converter's `sink.ready` of two edges ago; 0 before that. */
    function TxReady(): (ready: bool)
      reads this
      requires Valid()
      ensures |history| >= TxReadyLatency ==>
        ready == history[|history| - TxReadyLatency].txSinkReady
      ensures |history| < TxReadyLatency ==> !ready
    {
      TxReadyOfHistory(history);
      TxReadyOf(State())
    }

    /** `rx_valid`: the converter's `source.valid` of four edges ago; 0 before that. */
    function RxValid(): (valid: bool)
      reads this
      requires Valid()
      ensures |history| >= RxValidLatency ==>
        valid == history[|history| - RxValidLatency].rxSourceValid
      ensures |history| < RxValidLatency ==> !valid
    {
      RxValidOfHistory(history);
      RxValidOf(State())
    }

    /** `rx_bitslip.i`: the data of the latest valid receive word, 0 if none. */
    function BitslipInput(): (i: bv40)
      reads this
      requires Valid()
      ensures forall j :: (0 <= j < |history| && history[j].rxSourceValid &&
        (forall m :: j < m < |history| ==> !history[m].rxSourceValid)) ==>
        i == history[j].rxSourceData
      ensures (forall m :: 0 <= m < |history| ==> !history[m].rxSourceValid) ==> i == 0
    {
      BitslipInUnloadedAfterReset(history);
      BitslipInLatestAll(history);
      bitslipIn
    }

    /** One clock edge of the sync block. */
    method Step(x: SyncInputs)
      requires Valid()
      modifies this
      ensures Valid() && history == old(history) + [x]
      ensures State() == Next(old(State()), x)
    {
      txReadySr := ShiftIn(txReadySr, x.txSinkReady);
      rxValidSr := ShiftIn(rxValidSr, x.rxSourceValid);
      if x.rxSourceValid {
        bitslipIn := x.rxSourceData;
      }
      history := history + [x];
      assert history[..|history| - 1] == old(history);
    }
  }

  lemma BitslipInUnloadedAfterReset(xs: seq<SyncInputs>)
    ensures (forall m :: 0 <= m < |xs| ==> !xs[m].rxSourceValid) ==> Run(Reset(), xs).bitslipIn == 0
  {
    if forall m :: 0 <= m < |xs| ==> !xs[m].rxSourceValid {
      BitslipInUnloaded(Reset(), xs);
    }
  }

  lemma BitslipInLatestAll(xs: seq<SyncInputs>)
    ensures forall j :: (0 <= j < |xs| && xs[j].rxSourceValid &&
      (forall m :: j < m < |xs| ==> !xs[m].rxSourceValid)) ==>
      Run(Reset(), xs).bitslipIn == xs[j].rxSourceData
  {
    forall j | 0 <= j < |xs| && xs[j].rxSourceValid &&
      (forall m :: j < m < |xs| ==> !xs[m].rxSourceValid)
      ensures Run(Reset(), xs).bitslipIn == xs[j].rxSourceData
    {
      BitslipInLatest(Reset(), xs, j);
    }
  }
}
