/** Index arithmetic shared by the models: ceiling division, and the pairing of a quotient with a
    remainder. */
module IndexArith {

  function Min(a: nat, b: nat): nat {
    if a <= b then a else b
  }

  function CeilDiv(a: nat, b: nat): (c: nat)
    requires b > 0
    ensures a > 0 ==> c > 0
  {
    (a + b - 1) / b
  }

  lemma MulMono(a: nat, b: nat, c: nat)
    requires a <= b
    ensures a * c <= b * c && c * a <= c * b
  {
  }

  lemma CeilDivBounds(a: nat, b: nat)
    requires b > 0
    ensures CeilDiv(a, b) * b >= a
    ensures a > 0 ==> (CeilDiv(a, b) - 1) * b < a
  {
    var q := CeilDiv(a, b);
    assert a + b - 1 == q * b + (a + b - 1) % b;
    assert (q - 1) * b == q * b - b;
  }

  lemma {:induction false} PairUnique(n: nat, x: nat, y: nat, x': nat, y': nat)
    requires y < n && y' < n && x * n + y == x' * n + y'
    ensures x == x' && y == y'
  {
    if x < x' {
      MulMono(x + 1, x', n);
    } else if x' < x {
      MulMono(x' + 1, x, n);
    }
  }

  lemma {:induction false} DivIs(n: nat, h: nat, id: nat, j: nat)
    requires j < n && h == id * n + j
    ensures h / n == id && h % n == j
  {
    PairUnique(n, id, j, h / n, h % n);
  }

  lemma {:induction false} DivExact(x: nat, n: nat)
    requires n > 0
    ensures x * n / n == x
  {
    DivIs(n, x * n, x, 0);
  }

  lemma {:induction false} DivBelow(h: nat, n: nat, bound: nat)
    requires n > 0
    ensures h < bound * n <==> h / n < bound
  {
    var q := h / n;
    assert h == q * n + h % n;
    if q < bound {
      MulMono(q + 1, bound, n);
    } else {
      MulMono(bound, q, n);
    }
  }

  lemma {:induction false} DivTwiceBelow(h: nat, a: nat, b: nat, ab: nat, bound: nat)
    requires a > 0 && b > 0 && ab > 0 && ab == a * b
    ensures h / a / b < bound <==> h / ab < bound
  {
    DivBelow(h / a, b, bound);
    DivBelow(h, a, bound * b);
    assert (bound * b) * a == bound * ab;
    DivBelow(h, ab, bound);
  }

  lemma {:induction false} DivTwice(h: nat, a: nat, b: nat, ab: nat)
    requires a > 0 && b > 0 && ab > 0 && ab == a * b
    ensures h / a / b == h / ab
  {
    DivTwiceBelow(h, a, b, ab, h / ab);
    DivTwiceBelow(h, a, b, ab, h / ab + 1);
  }

  /** Position h of `groups` groups of size g, cut into blocks of v with n blocks to a group. */
  lemma BlockGroupBelow(h: nat, g: nat, groups: nat, v: nat, n: nat)
    requires v > 0 && n > 0 && n * v >= g && h < g * groups
    ensures h / v / n < groups
  {
    MulMono(g, n * v, groups);
    assert (n * v) * groups == (groups * n) * v;
    DivBelow(h, v, groups * n);
    DivBelow(h / v, n, groups);
  }
}
