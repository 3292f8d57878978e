/** Rows of reals. */
module Vectors {

  function Dot(a: seq<real>, b: seq<real>): real {
    if a == [] || b == [] then 0.0 else a[0] * b[0] + Dot(a[1..], b[1..])
  }

  function ScaledDot(a: seq<real>, b: seq<real>, scale: real): real {
    Dot(a, b) * scale
  }

  // ---- what a dot product is ----

  function Plus(a: seq<real>, b: seq<real>): (r: seq<real>)
    requires |a| == |b|
    ensures |r| == |a| && forall i :: 0 <= i < |r| ==> r[i] == a[i] + b[i]
  {
    seq(|a|, i requires 0 <= i < |a| => a[i] + b[i])
  }

  /** n zeros, but x at place i. */
  function Single(n: nat, i: nat, x: real): (r: seq<real>)
    ensures |r| == n && forall j :: 0 <= j < n ==> r[j] == if j == i then x else 0.0
  {
    seq(n, j => if j == i then x else 0.0)
  }

  lemma {:induction false} DotSwaps(a: seq<real>, b: seq<real>)
    ensures Dot(a, b) == Dot(b, a)
  {
    if a != [] && b != [] {
      DotSwaps(a[1..], b[1..]);
    }
  }

  lemma Distribute(a: real, b: real, c: real, sum: real)
    requires sum == a + b
    ensures sum * c == a * c + b * c
  {
  }

  lemma {:induction false} DotAdds(a: seq<real>, b: seq<real>, c: seq<real>)
    requires |a| == |b|
    ensures Dot(Plus(a, b), c) == Dot(a, c) + Dot(b, c)
  {
    if a != [] && c != [] {
      assert Plus(a, b)[1..] == Plus(a[1..], b[1..]);
      Distribute(a[0], b[0], c[0], Plus(a, b)[0]);
      DotAdds(a[1..], b[1..], c[1..]);
    }
  }

  lemma {:induction false} DotReads(n: nat, i: nat, x: real, c: seq<real>)
    ensures Dot(Single(n, i, x), c) == if i < n && i < |c| then x * c[i] else 0.0
  {
    if n > 0 && c != [] {
      if i == 0 {
        assert Single(n, i, x)[1..] == Single(n - 1, n, x);
        DotReads(n - 1, n, x, c[1..]);
      } else {
        assert Single(n, i, x)[1..] == Single(n - 1, i - 1, x);
        DotReads(n - 1, i - 1, x, c[1..]);
      }
    }
  }

  /** The score of a query against a key is additive in each of the two, and coordinate i of the one meets
      coordinate i of the other, scaled. */
  lemma {:induction false} ScoreIsBilinear(a: seq<real>, b: seq<real>, c: seq<real>, scale: real)
    requires |a| == |b|
    ensures ScaledDot(Plus(a, b), c, scale) == ScaledDot(a, c, scale) + ScaledDot(b, c, scale)
    ensures ScaledDot(c, Plus(a, b), scale) == ScaledDot(c, a, scale) + ScaledDot(c, b, scale)
  {
    hide Dot;
    DotAdds(a, b, c);
    DotSwaps(c, Plus(a, b));
    DotSwaps(c, a);
    DotSwaps(c, b);
    Distribute(Dot(a, c), Dot(b, c), scale, Dot(Plus(a, b), c));
  }

  lemma {:induction false} ScoreReads(n: nat, i: nat, x: real, c: seq<real>, scale: real)
    ensures ScaledDot(Single(n, i, x), c, scale) == if i < n && i < |c| then x * c[i] * scale else 0.0
  {
    hide Dot;
    DotReads(n, i, x, c);
  }
}
