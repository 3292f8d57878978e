/** The packed causal mask XQA verify keeps per buffer: one bit per (query, key) over the last
    q_seq_len positions, 32 columns to a word, read as little-endian 16-bit halves. */
module MaskPack {
  import opened Digits

  function WordsPerRow(qSeqLen: nat): nat {
    (qSeqLen + 31) / 32
  }

  /** Row q of the padded boolean matrix: lower triangle, false in the padding columns. */
  function BoolAt(qSeqLen: nat, q: nat, k: nat): bool {
    if k < qSeqLen then k <= q else false
  }

  function Bit(b: bool): (x: nat)
    ensures x < 2
  {
    if b then 1 else 0
  }

  function BitAt(qSeqLen: nat, q: nat, k: nat): (x: nat)
    ensures x < 2
  {
    Bit(BoolAt(qSeqLen, q, k))
  }

  /** The 32 bits of word n of row q. */
  function WordBits(qSeqLen: nat, q: nat, n: nat): (bits: seq<nat>)
    ensures |bits| == 32 && AreDigits(bits, 2)
    ensures forall i :: 0 <= i < 32 ==> bits[i] == BitAt(qSeqLen, q, 32 * n + i)
  {
    var bits := seq(32, i requires 0 <= i < 32 => BitAt(qSeqLen, q, 32 * n + i));
    assert forall i :: 0 <= i < 32 ==> bits[i] == BitAt(qSeqLen, q, 32 * n + i);
    bits
  }

  /** (bits * (1 << i)).sum(), in 64-bit arithmetic, then converted to uint32. */
  function Word(qSeqLen: nat, q: nat, n: nat): nat {
    ShiftSum(WordBits(qSeqLen, q, n), 2) % 0x1_0000_0000
  }

  /** Halfword h of row q after viewing the words as uint16, little-endian. */
  function Half(qSeqLen: nat, q: nat, h: nat): nat {
    var w := Word(qSeqLen, q, h / 2);
    if h % 2 == 0 then w % 0x1_0000 else w / 0x1_0000
  }

  lemma PowersOfTwo()
    ensures Pow(2, 16) == 0x1_0000 && Pow(2, 32) == 0x1_0000_0000
  {
    assert Pow(2, 4) == 16;
    assert Pow(2, 8) == 256;
    assert Pow(2, 12) == 4096;
    assert Pow(2, 16) == 0x1_0000;
    assert Pow(2, 20) == 0x10_0000;
    assert Pow(2, 24) == 0x100_0000;
    assert Pow(2, 28) == 0x1000_0000;
  }

  /** The conversion to uint32 loses nothing. */
  lemma WordIsExact(qSeqLen: nat, q: nat, n: nat)
    ensures Word(qSeqLen, q, n) == Value(WordBits(qSeqLen, q, n), 2)
  {
    var bits := WordBits(qSeqLen, q, n);
    ShiftSumIsValue(bits, 2);
    ValueBound(bits, 2);
    PowersOfTwo();
  }

  /** Bit k of row q, in the view the kernel reads, is set exactly when key k is at or before query q;
      so every padding bit is clear. */
  lemma MaskBit(qSeqLen: nat, q: nat, k: nat)
    requires q < qSeqLen && k < WordsPerRow(qSeqLen) * 32
    ensures Digit(Half(qSeqLen, q, k / 16), 2, k % 16) == Bit(k <= q)
  {
    var h, b := k / 16, k % 16;
    var n := h / 2;
    var bits := WordBits(qSeqLen, q, n);
    WordIsExact(qSeqLen, q, n);
    PowersOfTwo();
    CutValue(bits, 2, 16);
    if h % 2 == 0 {
      DigitOfValue(bits[..16], 2, b);
    } else {
      DigitOfValue(bits[16..], 2, b);
    }
  }
}
