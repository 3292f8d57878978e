/** The padded extents of a Marlin weight: the smallest shape that fits a thread-tile family and keeps
    whole quantisation groups. */
module TilePadding {
  import opened IndexArith

  predicate CommonMultiple(a: nat, b: nat, m: nat)
    requires a > 0 && b > 0
  {
    m % a == 0 && m % b == 0
  }

  /** Least common multiple from n on. */
  function LcmFrom(a: nat, b: nat, n: nat): (m: nat)
    requires a > 0 && b > 0 && n <= a * b
    ensures n <= m <= a * b && CommonMultiple(a, b, m)
    ensures forall x :: n <= x < m ==> !CommonMultiple(a, b, x)
    decreases a * b - n
  {
    if CommonMultiple(a, b, n) then n
    else
      ProductIsCommon(a, b);
      LcmFrom(a, b, n + 1)
  }

  lemma ProductIsCommon(a: nat, b: nat)
    requires a > 0 && b > 0
    ensures CommonMultiple(a, b, a * b)
  {
    DivIs(a, a * b, b, 0);
    DivIs(b, a * b, a, 0);
  }

  function Lcm(a: nat, b: nat): (m: nat)
    requires a > 0 && b > 0
    ensures m > 0 && CommonMultiple(a, b, m)
    ensures forall x :: 1 <= x < m ==> !CommonMultiple(a, b, x)
  {
    MulMono(1, a, b);
    LcmFrom(a, b, 1)
  }

  lemma {:induction false} DifferenceOfMultiples(a: nat, i: nat, j: nat, r: nat)
    requires a > 0 && a * i == a * j + r
    ensures r % a == 0
  {
    if i < j {
      MulMono(i + 1, j, a);
      assert false;
    }
    assert r == (i - j) * a;
    DivIs(a, r, i - j, 0);
  }

  lemma {:induction false} RemainderOfMultiple(x: nat, a: nat, q: nat, m: nat, r: nat)
    requires a > 0 && x == q * m + r && x % a == 0 && m % a == 0
    ensures r % a == 0
  {
    var i, j := x / a, m / a;
    assert x == a * i && m == a * j;
    assert q * (a * j) == a * (q * j);
    DifferenceOfMultiples(a, i, q * j, r);
  }

  /** Every common multiple is a multiple of the least one. */
  lemma {:induction false} LcmDivides(a: nat, b: nat, x: nat)
    requires a > 0 && b > 0 && CommonMultiple(a, b, x)
    ensures x % Lcm(a, b) == 0
  {
    hide Lcm;
    var m := Lcm(a, b);
    var q, r := x / m, x % m;
    assert x == q * m + r;
    RemainderOfMultiple(x, a, q, m, r);
    RemainderOfMultiple(x, b, q, m, r);
    assert CommonMultiple(a, b, r);
  }

  function RoundUp(x: nat, m: nat): nat
    requires m > 0
  {
    CeilDiv(x, m) * m
  }

  /** RoundUp is the least multiple of m that is at least x. */
  lemma RoundUpLeast(x: nat, m: nat, y: nat)
    requires m > 0
    ensures RoundUp(x, m) >= x && RoundUp(x, m) % m == 0
    ensures y >= x && y % m == 0 ==> RoundUp(x, m) <= y
  {
    var c := CeilDiv(x, m);
    CeilDivBounds(x, m);
    DivIs(m, c * m, c, 0);
    if y >= x && y % m == 0 && c * m > y {
      var d := y / m;
      assert y == d * m;
      if d >= c {
        MulMono(c, d, m);
      }
      MulMono(d, c - 1, m);
      if x == 0 {
        DivIs(m, m - 1, 0, m - 1);
      }
      assert false;
    }
  }

  predicate TileAligned(n: nat, k: nat) {
    (n % 64 == 0 && k % 128 == 0) || (n % 128 == 0 && k % 64 == 0)
  }

  /** (area, sum) in lexicographic order, as Python compares the two keys. */
  predicate Cheaper(a: (nat, nat), b: (nat, nat)) {
    a.0 * a.1 < b.0 * b.1 || (a.0 * a.1 == b.0 * b.1 && a.0 + a.1 < b.0 + b.1)
  }

  function Group(groupSize: int): (g: nat)
    ensures g > 0
  {
    if groupSize > 0 then groupSize else 1
  }

  function Candidate1(n: nat, k: nat, groupSize: int): (nat, nat) {
    (RoundUp(n, 64), RoundUp(k, Lcm(128, Group(groupSize))))
  }

  function Candidate2(n: nat, k: nat, groupSize: int): (nat, nat) {
    (RoundUp(n, 128), RoundUp(k, Lcm(64, Group(groupSize))))
  }

  /** `marlin_padded_nk`: min() keeps the first of equal candidates. */
  function PaddedNK(n: nat, k: nat, groupSize: int): (nat, nat) {
    var a, b := Candidate1(n, k, groupSize), Candidate2(n, k, groupSize);
    if Cheaper(b, a) then b else a
  }

  /** A shape the kernel accepts, at least as large as (n, k). */
  ghost predicate Fits(p: (nat, nat), n: nat, k: nat, groupSize: int) {
    p.0 >= n && p.1 >= k && TileAligned(p.0, p.1) && p.1 % Group(groupSize) == 0
  }

  lemma {:induction false} MultipleOfMultiple(x: nat, m: nat, a: nat)
    requires m > 0 && a > 0 && x % m == 0 && m % a == 0
    ensures x % a == 0
  {
    var i, j := x / m, m / a;
    assert x == i * m && m == a * j;
    assert i * (a * j) == a * (i * j);
    DivIs(a, x, i * j, 0);
  }

  lemma {:induction false} CandidateFits(n: nat, k: nat, groupSize: int, tn: nat, tk: nat)
    requires tn > 0 && tk > 0
    ensures var m := Lcm(tk, Group(groupSize));
      && RoundUp(n, tn) >= n && RoundUp(n, tn) % tn == 0
      && RoundUp(k, m) >= k && RoundUp(k, m) % tk == 0 && RoundUp(k, m) % Group(groupSize) == 0
  {
    var g := Group(groupSize);
    var m := Lcm(tk, g);
    RoundUpLeast(n, tn, n);
    RoundUpLeast(k, m, k);
    MultipleOfMultiple(RoundUp(k, m), m, tk);
    MultipleOfMultiple(RoundUp(k, m), m, g);
  }

  lemma {:induction false} CandidateLeast(n: nat, k: nat, groupSize: int, tn: nat, tk: nat, p: (nat, nat))
    requires tn > 0 && tk > 0 && p.0 >= n && p.1 >= k && p.0 % tn == 0 && p.1 % tk == 0 && p.1 % Group(groupSize) == 0
    ensures RoundUp(n, tn) <= p.0 && RoundUp(k, Lcm(tk, Group(groupSize))) <= p.1
    ensures RoundUp(n, tn) * RoundUp(k, Lcm(tk, Group(groupSize))) <= p.0 * p.1
  {
    var m := Lcm(tk, Group(groupSize));
    LcmDivides(tk, Group(groupSize), p.1);
    RoundUpLeast(n, tn, p.0);
    RoundUpLeast(k, m, p.1);
    MulMono(RoundUp(n, tn), p.0, RoundUp(k, m));
    MulMono(RoundUp(k, m), p.1, p.0);
  }

  /** The padded shape is acceptable, and no acceptable shape has a smaller area. */
  lemma {:induction false} PaddedIsMinimal(n: nat, k: nat, groupSize: int, p: (nat, nat))
    ensures Fits(PaddedNK(n, k, groupSize), n, k, groupSize)
    ensures Fits(p, n, k, groupSize) ==> PaddedNK(n, k, groupSize).0 * PaddedNK(n, k, groupSize).1 <= p.0 * p.1
  {
    hide Lcm, RoundUp;
    CandidateFits(n, k, groupSize, 64, 128);
    CandidateFits(n, k, groupSize, 128, 64);
    if Fits(p, n, k, groupSize) {
      if p.0 % 64 == 0 && p.1 % 128 == 0 {
        CandidateLeast(n, k, groupSize, 64, 128, p);
      } else {
        CandidateLeast(n, k, groupSize, 128, 64, p);
      }
    }
  }

  lemma SameArea(a: nat, b: nat, n: nat, k: nat)
    requires a >= n > 0 && b >= k > 0 && a * b <= n * k
    ensures a == n && b == k
  {
    if a > n {
      MulMono(n + 1, a, b);
      MulMono(k, b, n + 1);
    } else if b > k {
      MulMono(k + 1, b, n);
    }
  }

  /** A shape that is acceptable already passes through unchanged. */
  lemma {:induction false} AlignedUnchanged(n: nat, k: nat, groupSize: int)
    requires n > 0 && k > 0 && TileAligned(n, k) && k % Group(groupSize) == 0
    ensures PaddedNK(n, k, groupSize) == (n, k)
  {
    PaddedIsMinimal(n, k, groupSize, (n, k));
    var p := PaddedNK(n, k, groupSize);
    SameArea(p.0, p.1, n, k);
  }
}
