/** Migen signals as Dafny values.

    A `Signal(n)` that carries data is a `bvN`; bit i of the signal is bit i
    of the bit-vector.  A slice `v[a:b]` keeps bits a..b-1 and `Cat(x0, x1, ...)`
    puts its first argument in the low bits.  The link has four byte lanes,
    so the slices used by the framer are per lane: bit i of a 4-bit vector,
    byte i of a 32-bit word and 10-bit symbol i of a 40-bit group.

    The two latency shift registers are kept as `seq<bool>` (element i is
    bit i) so that one delay-line lemma covers both of their widths. */
module Signals {

  /** Number of byte lanes (one 8b10b encoder lane and one decoder per lane). */
  const NLanes: nat := 4

  type Lane = i: nat | i < 4

  /** `v[i]` of a 4-bit signal. */
  function Bit(v: bv4, i: Lane): bool
  {
    (v >> i) & 1 == 1
  }

  /** `Cat(b[0], b[1], b[2], b[3])` of four 1-bit signals. */
  function CatBits(b: seq<bool>): (r: bv4)
    requires |b| == NLanes
    ensures forall i: Lane :: Bit(r, i) == b[i]
  {
    var r: bv4 := (if b[0] then 1 else 0) | (if b[1] then 2 else 0) |
                  (if b[2] then 4 else 0) | (if b[3] then 8 else 0);
    assert Bit(r, 0) == b[0] && Bit(r, 1) == b[1] && Bit(r, 2) == b[2] && Bit(r, 3) == b[3];
    r
  }

  /** `v[8i:8i+8]` of a 32-bit signal. */
  function Byte(v: bv32, i: Lane): bv8
  {
    (match i
     case 0 => v & 0xFF
     case 1 => (v >> 8) & 0xFF
     case 2 => (v >> 16) & 0xFF
     case _ => (v >> 24) & 0xFF) as bv8
  }

  /** `Cat(b[0], b[1], b[2], b[3])` of four 8-bit signals. */
  function CatBytes(b: seq<bv8>): (r: bv32)
    requires |b| == NLanes
    ensures forall i: Lane :: Byte(r, i) == b[i]
  {
    var r := (b[0] as bv32) | ((b[1] as bv32) << 8) | ((b[2] as bv32) << 16) | ((b[3] as bv32) << 24);
    assert Byte(r, 0) == b[0];
    assert Byte(r, 1) == b[1];
    assert Byte(r, 2) == b[2];
    assert Byte(r, 3) == b[3];
    r
  }

  /** `v[10i:10i+10]` of a 40-bit signal. */
  function Symbol(v: bv40, i: Lane): bv10
  {
    (match i
     case 0 => v & 0x3FF
     case 1 => (v >> 10) & 0x3FF
     case 2 => (v >> 20) & 0x3FF
     case _ => (v >> 30) & 0x3FF) as bv10
  }

  /** `Cat(s[0], s[1], s[2], s[3])` of four 10-bit signals. */
  function CatSymbols(s: seq<bv10>): (r: bv40)
    requires |s| == NLanes
    ensures forall i: Lane :: Symbol(r, i) == s[i]
  {
    var r := (s[0] as bv40) | ((s[1] as bv40) << 10) | ((s[2] as bv40) << 20) | ((s[3] as bv40) << 30);
    assert Symbol(r, 0) == s[0];
    assert Symbol(r, 1) == s[1];
    assert Symbol(r, 2) == s[2];
    assert Symbol(r, 3) == s[3];
    r
  }

  /** The four lane slices of a vector cover it: concatenating them gives it back. */
  lemma SlicesCover(k: bv4, d: bv32, w: bv40)
    ensures CatBits([Bit(k, 0), Bit(k, 1), Bit(k, 2), Bit(k, 3)]) == k
    ensures CatBytes([Byte(d, 0), Byte(d, 1), Byte(d, 2), Byte(d, 3)]) == d
    ensures CatSymbols([Symbol(w, 0), Symbol(w, 1), Symbol(w, 2), Symbol(w, 3)]) == w
  {
  }

  // ---------------------------------------------------------------------
  // Fixed-latency shift registers: `sr.eq(Cat(b, sr))` in a sync block.

  /** One clock edge of `sr.eq(Cat(b, sr))`.  `Cat(b, sr)` is one bit wider
      than `sr` and the assignment keeps its low |sr| bits: the new bit is at
      bit 0, every other bit has moved up by one, and the old top bit is gone. */
  function ShiftIn(sr: seq<bool>, b: bool): (r: seq<bool>)
    ensures |r| == |sr|
    ensures |sr| > 0 ==> r[0] == b
    ensures forall j :: 0 < j < |sr| ==> r[j] == sr[j - 1]
  {
    seq(|sr|, j requires 0 <= j < |sr| => if j == 0 then b else sr[j - 1])
  }

  /** `sr[-1]`, the register's top bit. */
  function Top(sr: seq<bool>): bool
    requires |sr| > 0
  {
    sr[|sr| - 1]
  }

  /** The register after one clock edge per element of `bs`, oldest first. */
  function Feed(sr: seq<bool>, bs: seq<bool>): (r: seq<bool>)
    ensures |r| == |sr|
    decreases |bs|
  {
    if |bs| == 0 then sr else ShiftIn(Feed(sr, bs[..|bs| - 1]), bs[|bs| - 1])
  }

  /** Bit j of the register holds the value shifted in j+1 edges ago. */
  lemma {:induction false} FeedRecent(sr: seq<bool>, bs: seq<bool>, j: nat)
    requires j < |sr| && j < |bs|
    ensures Feed(sr, bs)[j] == bs[|bs| - 1 - j]
    decreases |bs|
  {
    var prefix := bs[..|bs| - 1];
    if j > 0 {
      FeedRecent(sr, prefix, j - 1);
      assert prefix[|prefix| - 1 - (j - 1)] == bs[|bs| - 1 - j];
    }
  }

  /** Before j+1 edges have passed, bit j still holds a bit of the starting value. */
  lemma {:induction false} FeedOld(sr: seq<bool>, bs: seq<bool>, j: nat)
    requires |bs| <= j < |sr|
    ensures Feed(sr, bs)[j] == sr[j - |bs|]
    decreases |bs|
  {
    if |bs| > 0 {
      var prefix := bs[..|bs| - 1];
        FeedOld(sr, prefix, j - 1);
    }
  }

  /** A register of width n delays its input by exactly n edges: after
      k >= n edges, the top bit is the bit shifted in at edge k - n. */
  lemma DelayLine(sr: seq<bool>, bs: seq<bool>)
    requires 0 < |sr| <= |bs|
    ensures Top(Feed(sr, bs)) == bs[|bs| - |sr|]
  {
    FeedRecent(sr, bs, |sr| - 1);
  }

  /** Before n edges, the top bit still shows the starting value. */
  lemma DelayLineFill(sr: seq<bool>, bs: seq<bool>)
    requires |bs| < |sr|
    ensures Top(Feed(sr, bs)) == sr[|sr| - 1 - |bs|]
  {
    FeedOld(sr, bs, |sr| - 1);
  }

  /** A delay line of depth n started all zero, fed with `bs`: its top bit
      is `bs[|bs| - n]`, or 0 while fewer than n bits have gone in. */
  lemma TopOfSampled(sr0: seq<bool>, bs: seq<bool>, n: nat, b: bool)
    requires |sr0| == n > 0 && forall j :: 0 <= j < n ==> !sr0[j]
    requires |bs| >= n ==> bs[|bs| - n] == b
    ensures Top(Feed(sr0, bs)) == (|bs| >= n && b)
  {
    if |bs| >= n {
      DelayLine(sr0, bs);
    } else {
      DelayLineFill(sr0, bs);
    }
  }
}
