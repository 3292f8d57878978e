/** Fixed-width digits packed into one number, least significant first. */
module Digits {
  import opened IndexArith

  function Pow(base: nat, n: nat): nat {
    if n == 0 then 1 else base * Pow(base, n - 1)
  }

  ghost predicate AreDigits(d: seq<nat>, base: nat) {
    forall i :: 0 <= i < |d| ==> d[i] < base
  }

  /** The number whose digits are d. */
  function Value(d: seq<nat>, base: nat): nat {
    if d == [] then 0 else d[0] + base * Value(d[1..], base)
  }

  /** Digit i of a number. */
  function Digit(w: nat, base: nat, i: nat): nat
    requires base > 0
    decreases i
  {
    if i == 0 then w % base else Digit(w / base, base, i - 1)
  }

  /** Shift every digit to its place and add up: the tensor form of packing. */
  function ShiftSum(d: seq<nat>, base: nat): nat {
    if d == [] then 0
    else ShiftSum(d[..|d| - 1], base) + d[|d| - 1] * Pow(base, |d| - 1)
  }

  lemma {:induction false} SplitDigit(x: nat, base: nat, rest: nat)
    requires base > 0 && x < base
    ensures (x + base * rest) % base == x && (x + base * rest) / base == rest
  {
    DivIs(base, x + base * rest, rest, x);
  }

  /** Unpacking recovers every digit, and finds zeros past the last. */
  lemma {:induction false} DigitOfValue(d: seq<nat>, base: nat, i: nat)
    requires base > 0 && AreDigits(d, base)
    ensures Digit(Value(d, base), base, i) == if i < |d| then d[i] else 0
    decreases i
  {
    if d == [] {
      ZeroDigits(base, i);
    } else {
      SplitDigit(d[0], base, Value(d[1..], base));
      if i > 0 {
        DigitOfValue(d[1..], base, i - 1);
      }
    }
  }

  lemma {:induction false} ZeroDigits(base: nat, i: nat)
    requires base > 0
    ensures Digit(0, base, i) == 0
    decreases i
  {
    if i > 0 {
      ZeroDigits(base, i - 1);
    }
  }

  lemma {:induction false} ValueBound(d: seq<nat>, base: nat)
    requires base > 0 && AreDigits(d, base)
    ensures Value(d, base) < Pow(base, |d|)
  {
    if d != [] {
      ValueBound(d[1..], base);
      MulMono(Value(d[1..], base) + 1, Pow(base, |d| - 1), base);
    }
  }

  lemma Reassociate(b: nat, p: nat, v: nat, x: nat)
    ensures b * (x + p * v) == b * x + (b * p) * v
  {
  }

  lemma {:induction false} ValueAppend(a: seq<nat>, b: seq<nat>, base: nat)
    ensures Value(a + b, base) == Value(a, base) + Pow(base, |a|) * Value(b, base)
  {
    if a == [] {
      assert a + b == b;
    } else {
      ValueAppend(a[1..], b, base);
      assert (a + b)[1..] == a[1..] + b;
      Reassociate(base, Pow(base, |a| - 1), Value(b, base), Value(a[1..], base));
    }
  }

  /** Both forms of packing agree. */
  lemma {:induction false} ShiftSumIsValue(d: seq<nat>, base: nat)
    ensures ShiftSum(d, base) == Value(d, base)
  {
    if d != [] {
      var init, last := d[..|d| - 1], d[|d| - 1];
      ShiftSumIsValue(init, base);
      ValueAppend(init, [last], base);
      assert d == init + [last];
      assert Value([last], base) == last;
    }
  }

  /** Cutting a packed number in two at digit n. */
  lemma {:induction false} CutValue(d: seq<nat>, base: nat, n: nat)
    requires base > 0 && AreDigits(d, base) && n <= |d|
    ensures Pow(base, n) > 0
    ensures Value(d, base) % Pow(base, n) == Value(d[..n], base)
    ensures Value(d, base) / Pow(base, n) == Value(d[n..], base)
  {
    ValueAppend(d[..n], d[n..], base);
    assert d == d[..n] + d[n..];
    ValueBound(d[..n], base);
    SplitDigit(Value(d[..n], base), Pow(base, n), Value(d[n..], base));
  }
}
