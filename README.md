# SerWB framing logic of `KUSSerdes`, modelled in Dafny

`KUSSerdes` (liteiclink/serwb/kusphy.py) is the physical layer of a SerWB
board-to-board link on Xilinx UltraScale parts. Most of the file wires up
SerDes, I/O-buffer and delay primitives. This project models the synchronous
framing logic between those primitives and the application. The model treats
the design as a cycle-level machine:

* **Signals** (`signals.dfy`): a Migen `Signal(n)` is a `bvN`. Lane slices
  (`v[i]`, `v[8i:8i+8]`, `v[10i:10i+10]`) and `Cat` are defined per lane, and
  each `Cat` is proved to put lane i back in slice i. The latency shift
  registers are `seq<bool>`. One clock edge of `sr.eq(Cat(b, sr))` is
  `ShiftIn`. The delay-line lemmas prove that a register of width n delays its
  input by exactly n edges.
* **Codec boundary** (`codec.dfy`): the lane character `Char(k, d)`, the comma
  K28.5 and the undriven lane value. The 8b10b `Encoder`/`Decoder` are not
  implemented. They appear only as function-valued parameters, together with
  the stated assumption `Inverts`: on valid characters, the decoder undoes the
  encoder (clause 36.2.4 of IEEE 802.3).
* **TX framer** (`tx_framer.dfy`): the comma multiplexer in front of the
  encoder and the idle multiplexer behind it. It also holds the training clock
  word and `Transmit`, which collects the transmit data-path comb outputs of a
  cycle: the encoder inputs, the converter's `sink.data` and the constant
  wiring (`sink.valid = 1`, `source.ready = 1`, `encoder.ce = sink.ready`).
  `tx_ready` (line 105) is in `serdes.dfy`; the clock-pad converter's wiring
  (lines 50, 55) is not modelled, only the word it carries.
* **RX deframer** (`rx_deframer.dfy`): slicing of the bit-slip output into the
  four decoder inputs, `Cat` packing into `rx_k`/`rx_d`, and the `rx_idle` and
  `rx_comma` predicates. `Receive` collects the receive data-path comb outputs
  of a cycle fed from the bit-slip output and the decoders, with the constant
  converter handshake and the pass-through of `rx_bitslip_value`. `rx_valid`
  (line 207) is in `serdes.dfy`; `rx_converter.sink.data = serdes_q` (line 201)
  comes from the SerDes primitive and is not modelled.
* **Registers** (`serdes.dfy`): the `self.sync` statements. `Next` is one clock
  edge on register values and `Run` is a sequence of edges. The class
  `KUSSerdes` holds `tx_ready_sr`, `rx_valid_sr` and `rx_bitslip.i` as fields,
  and `Step` advances them. Its ghost `history` records the sampled inputs, so
  `TxReady()`, `RxValid()` and `BitslipInput()` state their value in terms of
  past inputs.
* **Link** (`link.dfy`): transmitter and receiver back to back. The line is
  taken as lossless and correctly aligned, so the bit-slip output equals the
  transmitted 40-bit group. The lemmas cover data round trips, comma and idle
  detection, and exactly which transmitted words raise `rx_comma`.

Cycle convention: `Run(Reset(), xs[..t])` is the register state during cycle t,
after t clock edges. `xs[t]` is what the edge at the end of cycle t samples.

Points where the code behaves differently from what a reader might expect:

* In comma mode, lanes 1-3 of the encoder are not assigned (kusphy.py:81-84).
  Under Migen's comb semantics they take their reset value `k = 0, d = 0`. They
  do not carry the user's `tx_k`/`tx_d`.
* `rx_idle` tests the raw 40-bit bit-slip output against zero (kusphy.py:210),
  not the decoded word.
* `rx_comma` is not raised by comma mode alone. The plain data word
  `tx_k = 0b0001`, `tx_d = 0x000000BC` decodes to the same four characters and
  raises it too (`Link.CommaDetectedExactly`).
* `rx_valid` is the receive converter's `source.valid` delayed by four edges. No
  decode-error flag or bit-slip search appears in this file.

## Model

| member | source | states |
|---|---|---|
| `Signals.CatBits` | liteiclink/serwb/kusphy.py:208 | `Cat` of four 1-bit signals puts input i at bit i. |
| `Signals.CatBytes` | liteiclink/serwb/kusphy.py:209 | `Cat` of four bytes puts byte i at bits [8i, 8i+8). |
| `Signals.CatSymbols` | liteiclink/serwb/kusphy.py:101 | `Cat` of four 10-bit symbols puts symbol i at bits [10i, 10i+10). |
| `Signals.SlicesCover` | liteiclink/serwb/kusphy.py:203-206 | Concatenating the four lane slices of a 4-, 32- or 40-bit vector gives the vector back. |
| `Signals.ShiftIn` | liteiclink/serwb/kusphy.py:104 | `sr.eq(Cat(b, sr))` keeps the width, puts `b` at bit 0, moves every bit up by one and drops the top bit. |
| `Signals.FeedRecent` | liteiclink/serwb/kusphy.py:104 | After any sequence of edges, bit j of a shift register holds the bit shifted in j+1 edges ago, when that many edges have passed. |
| `Signals.FeedOld` | liteiclink/serwb/kusphy.py:77 | If only k ≤ j edges have passed, bit j of a shift register holds starting bit j−k. |
| `Signals.DelayLine` | liteiclink/serwb/kusphy.py:105 | After k ≥ n edges, the top bit (`sr[-1]`) of a width-n register is the bit shifted in at edge k−n. |
| `Signals.DelayLineFill` | liteiclink/serwb/kusphy.py:77 | Until n edges have passed, the top bit shows the register's starting value. |
| `Codec.DecodeAll` | liteiclink/serwb/kusphy.py:36 | The four decoders work lane by lane: output lane i is the decoder applied to input symbol i. |
| `Codec.DecodeEncoded` | liteiclink/serwb/kusphy.py:35-36 | Under the stated inverse assumption, the four decoders give back any valid character group the encoder encoded. |
| `TxFramer.ClockWord` | liteiclink/serwb/kusphy.py:51-54 | Each of the four 10-bit slots of the clock-pad word is `0b1111100000`. |
| `TxFramer.ClockWordIsSquareWave` | liteiclink/serwb/kusphy.py:51-54 | From bit 0, the clock word alternates five 0 bits and five 1 bits: a period-10, 50 % duty clock. |
| `TxFramer.EncoderInput` | liteiclink/serwb/kusphy.py:81-93 | Comma mode: lane 0 is `k=1, d=0xBC` and lanes 1-3 are `k=0, d=0`. Otherwise lane i is `tx_k[i]`, `tx_d[8i:8i+8]`. |
| `TxFramer.CommaIgnoresWord` | liteiclink/serwb/kusphy.py:81-84 | In comma mode, `tx_k` and `tx_d` have no effect on the encoder inputs. |
| `TxFramer.EncoderInputCarriesWord` | liteiclink/serwb/kusphy.py:85-92 | Outside comma mode, repacking the encoder lanes' k flags and bytes gives exactly `tx_k` and `tx_d`. |
| `TxFramer.ConverterData` | liteiclink/serwb/kusphy.py:98-102 | Idle: the converter input is 0 whatever the encoder outputs. Otherwise bits [10i, 10i+10) are encoder output lane i. |
| `TxFramer.Transmit` | liteiclink/serwb/kusphy.py:79-102 | One cycle's transmit wiring: encoder inputs from the comma multiplexer, `encoder.ce = sink.ready`, `sink.valid = 1`, `source.ready = 1`, and a converter word that is 0 when idle and otherwise carries encoder lane i in slot i. |
| `RxDeframer.DecoderInputs` | liteiclink/serwb/kusphy.py:203-206 | Decoder i gets bits [10i, 10i+10) of the bit-slip output, and the four inputs concatenated rebuild that output. |
| `RxDeframer.RxK` | liteiclink/serwb/kusphy.py:208 | Bit i of `rx_k` is decoder i's k. |
| `RxDeframer.RxD` | liteiclink/serwb/kusphy.py:209 | Byte i of `rx_d` is decoder i's d. |
| `RxDeframer.PackingIsInjective` | liteiclink/serwb/kusphy.py:208-209 | `rx_k` and `rx_d` together determine all four decoded characters. |
| `RxDeframer.RxIdle` | liteiclink/serwb/kusphy.py:210 | `rx_idle` holds exactly when every decoder is fed the all-zero symbol, i.e. the raw bit-slip output is 0. |
| `RxDeframer.RxComma` | liteiclink/serwb/kusphy.py:211-214 | `rx_comma` holds exactly when the decoded lanes are (K28.5, 0/0, 0/0, 0/0). Equivalently, `rx_k == 0b0001` and `rx_d == 0x000000BC`. |
| `RxDeframer.Receive` | liteiclink/serwb/kusphy.py:199-214 | One cycle's receive wiring: decoder inputs are the bit-slip slices, `rx_bitslip.value` passes through, the converter handshake is constant 1 (also line 151), `rx_idle` holds iff every decoder input is 0, and `rx_comma` holds iff `rx_k == 0b0001` and `rx_d == 0x000000BC`. |
| `Serdes.Reset` | liteiclink/serwb/kusphy.py:149 | At reset both shift registers (`Signal(latency)`, also line 77) have their declared width and hold only zeros, and the bit-slip input is 0. |
| `Serdes.Next` | liteiclink/serwb/kusphy.py:193-198 | One edge: each shift register keeps its width, takes its sampled bit at bit 0 and moves every other bit up (also line 104); the bit-slip input loads `source.data` when `source.valid` is set and holds otherwise. |
| `Serdes.Run` | liteiclink/serwb/kusphy.py:104 | Any run of edges keeps each shift register at its width, so `Signal(latency)` stays well formed. |
| `Serdes.TxReadyOf` | liteiclink/serwb/kusphy.py:105 | `tx_ready` is bit `tx_ready_latency - 1`, the top bit, of `tx_ready_sr`. |
| `Serdes.RxValidOf` | liteiclink/serwb/kusphy.py:207 | `rx_valid` is bit `rx_valid_latency - 1`, the top bit, of `rx_valid_sr`. |
| `Serdes.RunShiftRegisters` | liteiclink/serwb/kusphy.py:104 | Over any run of edges, `tx_ready_sr` is a delay line fed with `sink.ready` and `rx_valid_sr` a delay line fed with `source.valid` (line 194). |
| `Serdes.TxReadyDelay` | liteiclink/serwb/kusphy.py:104-105 | `tx_ready` at cycle t+2 equals `tx_converter.sink.ready` at cycle t (`tx_ready_latency = 2`). |
| `Serdes.RxValidDelay` | liteiclink/serwb/kusphy.py:194 | `rx_valid` (line 207) at cycle t+4 equals `rx_converter.source.valid` at cycle t (`rx_valid_latency = 1+1+2`). |
| `Serdes.QuietAfterReset` | liteiclink/serwb/kusphy.py:149 | Within the first 2 (TX) or 4 (RX) cycles after reset, `tx_ready` and `rx_valid` are 0. |
| `Signals.TopOfSampled` | liteiclink/serwb/kusphy.py:104-105 | A width-n register started at all zeros shows on its top bit the n-th most recent input bit, and 0 while fewer than n bits have gone in. |
| `Serdes.TxReadyFrom` | liteiclink/serwb/kusphy.py:104-105 | From any state whose shift registers are zero, `tx_ready` is the `sink.ready` sampled two edges earlier, and 0 if there is none. |
| `Serdes.RxValidFrom` | liteiclink/serwb/kusphy.py:194 | From any state whose shift registers are zero, `rx_valid` (line 207) is the `source.valid` sampled four edges earlier, and 0 if there is none. |
| `Serdes.TxReadyOfHistory` | liteiclink/serwb/kusphy.py:105 | After any edges since reset, `tx_ready` is the `sink.ready` sampled two edges earlier, and 0 if there is none. |
| `Serdes.RxValidOfHistory` | liteiclink/serwb/kusphy.py:207 | After any edges since reset, `rx_valid` is the `source.valid` sampled four edges earlier, and 0 if there is none. |
| `Serdes.BitslipInLatest` | liteiclink/serwb/kusphy.py:195-197 | The bit-slip input register holds the data of the most recent cycle with `source.valid` set. |
| `Serdes.BitslipInUnloaded` | liteiclink/serwb/kusphy.py:195 | Over cycles without `source.valid`, the bit-slip input register keeps its value. |
| `Serdes.KUSSerdes.constructor` | liteiclink/serwb/kusphy.py:77 | Reset: both shift registers and the bit-slip input are 0, and no edge has passed. |
| `Serdes.KUSSerdes.TxReady` | liteiclink/serwb/kusphy.py:104-105 | On the object: `tx_ready` is the `sink.ready` of `tx_ready_latency` edges ago, and 0 before that. |
| `Serdes.KUSSerdes.RxValid` | liteiclink/serwb/kusphy.py:207 | On the object: `rx_valid` is the `source.valid` of `rx_valid_latency` edges ago, and 0 before that. |
| `Serdes.KUSSerdes.BitslipInput` | liteiclink/serwb/kusphy.py:195-197 | On the object: `rx_bitslip.i` is the data of the latest valid receive word, and 0 if there is none. |
| `Serdes.KUSSerdes.Step` | liteiclink/serwb/kusphy.py:193-198 | One clock edge: shifts `source.valid` into `rx_valid_sr` and `sink.ready` into `tx_ready_sr` (line 104), loads the bit-slip input only on valid cycles, and records the inputs. |
| `Link.SlicesOfSent` | liteiclink/serwb/kusphy.py:101 | Outside idle, the receive decoders see exactly the four encoder output symbols. |
| `Link.DataRoundTrip` | liteiclink/serwb/kusphy.py:85-92 | A valid data word (not idle, not comma) arrives with `rx_k == tx_k` and `rx_d == tx_d`. |
| `Link.CommaRoundTrip` | liteiclink/serwb/kusphy.py:81-84 | A group sent in comma mode (not idle) raises `rx_comma`, whatever `tx_k`/`tx_d` are. |
| `Link.IdleRoundTrip` | liteiclink/serwb/kusphy.py:98-99 | A group sent in idle mode raises `rx_idle`, whatever the encoder outputs. |
| `Link.CommaDetectedExactly` | liteiclink/serwb/kusphy.py:211-214 | Outside idle, `rx_comma` at the receiver holds if and only if the sender was in comma mode or sent `tx_k = 0b0001`, `tx_d = 0x000000BC`. |

## Left out

- OSERDESE3, ISERDESE3, IDELAYE3, OBUFDS, IBUFDS, IBUFDS_DIFF_OUT, BUFR and BUFG instances (kusphy.py:58-73, 108-123, 130-145, 155-192): physical I/O and clock primitives. The SerDes byte `serdes_q` feeding the receive converter is therefore not modelled.
- The `rx_delay_*` controls: they only pass through to IDELAYE3. `REFCLK_FREQUENCY` is a floating-point primitive parameter.
- The master/slave choice and the `refclk` derivation (kusphy.py:12-13, 47, 126-145): platform clocking. The clock word is modelled, but the master-only converter that carries it (lines 48-56) is not.
- The 8b10b code tables and running disparity: `Encoder` and `Decoder` are library code. The encoder's outputs and the decoders' outputs are free per-cycle inputs of `TxFramer.Transmit` and `RxDeframer.Receive`.
- Codec.DecodeEncoded: stated under the assumption `Codec.Inverts`. That is a per-cycle, per-lane inverse on valid characters. Disparity state appears only as whatever the encoder function stands for in that cycle, and decode-error flags are not modelled.
- The encoder's clock enable (`encoder.ce = sink.ready`, line 96) is passed through by `TxFramer.Transmit`. Its effect inside the encoder (holding the output while not enabled) is library behaviour and is not modelled.
- The internals of `stream.Converter` (40-to-8 and 8-to-40 width conversion) and of `BitSlip(40)`. Converter `sink.ready`, `source.valid` and `source.data` are per-cycle inputs of the register step. The bit-slip output is a per-cycle input of the receive comb logic, and `rx_bitslip_value` is only passed through.
- Bit-slip search, debounce policy and the link-training state machine: none of them exists in this file.
- Link lemmas: the line is taken as lossless and correctly aligned, so the bit-slip output equals the transmitted group. The encoder (two enabled cycles, line 9) and the decoders (one cycle, line 10) are treated as zero-latency functions of the current cycle, so `Link.Sent` applies `tx_idle` to the encoder output for the same cycle's `tx_comma`/`tx_k`/`tx_d`, and `Link.Decoded` pairs `rx_idle` with the same cycle's `rx_comma`/`rx_k`/`rx_d`. In the circuit the idle multiplexer (line 98) acts on the word presented two enabled cycles earlier, and `rx_comma`/`rx_k`/`rx_d` lag `rx_idle` by one cycle. The latencies between the transmit and receive clock domains are not combined either.
