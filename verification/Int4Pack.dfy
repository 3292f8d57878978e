/** Packing of signed int4 weights, eight to a 32-bit word, in int32 arithmetic that wraps. */
module Int4Pack {
  import opened IndexArith
  import opened Digits

  const TWO31: int := 0x8000_0000
  const TWO32: int := 0x1_0000_0000

  /** Two's complement 32-bit. */
  function Wrap32(x: int): (w: int)
    ensures -TWO31 <= w < TWO31
    ensures -TWO31 <= x < TWO31 ==> w == x
  {
    (x + TWO31) % TWO32 - TWO31
  }

  /** (w + 8) & 0xF */
  function U4(w: int): (u: nat)
    ensures u < 16
    ensures -8 <= w < 8 ==> u == w + 8
  {
    (w + 8) % 16
  }

  /** 1 << (4 * j) */
  function Place(j: nat): nat {
    Pow(16, j)
  }

  /** The int32 shift wraps; the sum over the eight runs in 64 bits. */
  function ShiftedSum(u: seq<nat>): int {
    if u == [] then 0
    else ShiftedSum(u[..|u| - 1]) + Wrap32(u[|u| - 1] * Place(|u| - 1))
  }

  /** One packed word: the sum converted back to int32. */
  function PackWord(ws: seq<int>): int {
    Wrap32(ShiftedSum(Nibbles(ws)))
  }

  function Nibbles(ws: seq<int>): (u: seq<nat>)
    ensures |u| == |ws| && AreDigits(u, 16)
    ensures forall j :: 0 <= j < |ws| ==> u[j] == U4(ws[j])
  {
    var u := seq(|ws|, j requires 0 <= j < |ws| => U4(ws[j]));
    assert forall j :: 0 <= j < |ws| ==> u[j] == U4(ws[j]);
    u
  }

  /** Nibble j of a 32-bit word, as the kernel reads it. */
  function Nibble(word: int, j: nat): nat {
    Digit(word % TWO32, 16, j)
  }

  /** What the kernel takes position j of a word to mean: uint4 with a bias of 8. */
  function Decode(word: int, j: nat): int {
    Nibble(word, j) - 8
  }

  lemma Places()
    ensures Place(6) == 0x100_0000 && Place(7) == 0x1000_0000 && Place(8) == TWO32
  {
    assert Pow(16, 2) == 256;
    assert Pow(16, 4) == 0x1_0000;
    assert Pow(16, 6) == 0x100_0000;
  }

  lemma {:induction false} PlaceMono(i: nat, j: nat)
    requires i <= j
    ensures Place(i) <= Place(j)
    decreases j
  {
    if i < j {
      PlaceMono(i, j - 1);
    }
  }

  /** Below the eighth digit no shift wraps. */
  lemma {:induction false} NoWrap(u: seq<nat>)
    requires |u| <= 7 && AreDigits(u, 16)
    ensures ShiftedSum(u) == ShiftSum(u, 16)
  {
    if u != [] {
      NoWrap(u[..|u| - 1]);
      Places();
      PlaceMono(|u| - 1, 6);
      MulMono(u[|u| - 1], 15, Place(|u| - 1));
    }
  }

  /** The eighth shift wraps exactly when the digit is 8 or more, by 2^32; so the sum is an int32
      already - the final conversion loses nothing - and congruent to the plain packed value. */
  lemma {:induction false} SumFits(u: seq<nat>)
    requires |u| == 8 && AreDigits(u, 16)
    ensures -TWO31 <= ShiftedSum(u) < TWO31
    ensures ShiftedSum(u) == Value(u, 16) - (if u[7] >= 8 then TWO32 else 0)
    ensures 0 <= Value(u, 16) < TWO32
  {
    var low := u[..7];
    NoWrap(low);
    ShiftSumIsValue(low, 16);
    ShiftSumIsValue(u, 16);
    ValueBound(low, 16);
    ValueBound(u, 16);
    Places();
    assert u[7] < 16;
    var top := u[7] * 0x1000_0000;
    assert Wrap32(top) == if u[7] >= 8 then top - TWO32 else top;
  }

  /** Read as 32 unsigned bits, the packed word is the plain packed value. */
  lemma WordBits(ws: seq<int>)
    requires |ws| == 8
    ensures PackWord(ws) % TWO32 == Value(Nibbles(ws), 16)
  {
    hide ShiftedSum, Value, Nibbles, U4;
    SumFits(Nibbles(ws));
  }

  /** Unpacking a packed word gives back every weight. */
  lemma PackRoundTrip(ws: seq<int>, j: nat)
    requires |ws| == 8 && j < 8
    requires forall i :: 0 <= i < 8 ==> -8 <= ws[i] < 8
    ensures Decode(PackWord(ws), j) == ws[j]
  {
    hide PackWord, Value;
    WordBits(ws);
    DigitOfValue(Nibbles(ws), 16, j);
  }

  /** A zero word - what padding adds - decodes to -8 everywhere, not to zero. */
  lemma ZeroWordDecodes(j: nat)
    ensures Decode(0, j) == -8
  {
    ZeroDigits(16, j);
  }
}
