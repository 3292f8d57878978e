/** The two roundings the quantisers use, over exact reals. */
module Rounding {

  /** torch.round: to nearest, ties to even. */
  function HalfEven(x: real): int {
    var f := x.Floor;
    var d := x - f as real;
    if d < 0.5 || (d == 0.5 && f % 2 == 0) then f else f + 1
  }

  /** libdevice round: to nearest, ties away from zero. */
  function HalfAway(x: real): int {
    if x >= 0.0 then (x + 0.5).Floor else -((-x + 0.5).Floor)
  }

  function Abs(x: real): (a: real)
    ensures a >= 0.0 && (a == x || a == -x)
  {
    if x >= 0.0 then x else -x
  }

  lemma HalfEvenNear(x: real)
    ensures -0.5 <= HalfEven(x) as real - x <= 0.5
  {
  }

  lemma HalfEvenOfInt(n: int)
    ensures HalfEven(n as real) == n
  {
  }

  /** An integer bound on x bounds its rounding. */
  lemma HalfEvenBounded(x: real, n: int)
    requires -(n as real) <= x <= n as real
    ensures -n <= HalfEven(x) <= n
  {
    assert x.Floor as real <= x;
    if x == n as real {
      HalfEvenOfInt(n);
    }
  }

  function Max(a: real, b: real): real {
    if a >= b then a else b
  }

  /** Largest absolute value of a row, 0 for an empty one. */
  function AbsMax(x: seq<real>): (m: real)
    ensures m >= 0.0
    ensures forall i :: 0 <= i < |x| ==> Abs(x[i]) <= m
    ensures m == 0.0 || exists i :: 0 <= i < |x| && Abs(x[i]) == m
  {
    if x == [] then 0.0
    else
      var rest := AbsMax(x[..|x| - 1]);
      Max(rest, Abs(x[|x| - 1]))
  }

  /** m is the largest absolute value of x. */
  ghost predicate IsAbsMax(x: seq<real>, m: real) {
    && (forall i :: 0 <= i < |x| ==> Abs(x[i]) <= m)
    && exists i :: 0 <= i < |x| && Abs(x[i]) == m
  }

  /** v is a whole number of units. */
  predicate Whole(v: real, unit: real)
    requires unit > 0.0
  {
    (v / unit).Floor as real == v / unit
  }

  lemma HalfAwayNear(x: real)
    ensures -0.5 <= HalfAway(x) as real - x <= 0.5
  {
  }

  lemma HalfAwayOfInt(n: int)
    ensures HalfAway(n as real) == n
  {
    if n >= 0 {
      assert (n as real + 0.5).Floor == n;
    } else {
      assert -(n as real) == (-n) as real;
      assert ((-n) as real + 0.5).Floor == -n;
    }
  }

  // ---- dividing by a scale and multiplying by it ----

  lemma DivMul(a: real, b: real)
    requires b != 0.0
    ensures a / b * b == a
  {
  }

  lemma MulOrder(a: real, b: real, s: real)
    requires s > 0.0 && a > b
    ensures a * s > b * s
  {
  }

  /** Dividing by the scale never leaves [-qmax, qmax]. */
  lemma Ratio(v: real, m: real, q: real, scale: real)
    requires q >= 1.0 && m > 0.0 && Abs(v) <= m && scale == m / q
    ensures scale > 0.0 && q * scale == m
    ensures -q <= v / scale <= q
  {
    DivMul(m, q);
    var r := v / scale;
    DivMul(v, scale);
    if r > q {
      MulOrder(r, q, scale);
    }
    if r < -q {
      MulOrder(-q, r, scale);
    }
  }

  lemma HalfScale(n: real, r: real, s: real)
    requires s > 0.0 && -0.5 <= n - r <= 0.5
    ensures Abs(n * s - r * s) <= s / 2.0
  {
    var p, q := n * s, r * s;
    Distribute(n, r, s);
    Distribute(0.5, n - r, s);
    NotNegative(0.5 - (n - r), s);
    Distribute(n - r, -0.5, s);
    NotNegative((n - r) - -0.5, s);
    Within(p - q, s, 0.5 * s, -0.5 * s);
  }

  lemma Distribute(a: real, b: real, s: real)
    ensures (a - b) * s == a * s - b * s
  {
  }

  lemma NotNegative(a: real, s: real)
    requires a >= 0.0 && s >= 0.0
    ensures a * s >= 0.0
  {
  }

  lemma Within(d: real, s: real, up: real, down: real)
    requires up == s / 2.0 && down == -up && down <= d <= up
    ensures Abs(d) <= s / 2.0
  {
  }

  lemma Undo(v: real, unit: real, r: real)
    requires unit > 0.0 && r * unit == v
    ensures r == v / unit
  {
    var q := v / unit;
    DivMul(v, unit);
    Distribute(r, q, unit);
    if r > q {
      MulOrder(r, q, unit);
    }
    if r < q {
      MulOrder(q, r, unit);
    }
  }

  // ---- products as terms of their own ----

  function Times(a: real, b: real): real {
    a * b
  }

  lemma TimesMinus(w: real, a: real, b: real)
    ensures Times(w, a - b) == Times(w, a) - Times(w, b)
    ensures Times(a - b, w) == Times(a, w) - Times(b, w)
  {
  }

  lemma TimesSign(a: real, b: real)
    requires a >= 0.0 && b >= 0.0
    ensures Times(a, b) >= 0.0
    ensures a > 0.0 && b > 0.0 ==> Times(a, b) > 0.0
  {
  }

  lemma TimesUnits(a: real)
    ensures Times(a, 0.0) == 0.0 && Times(1.0, a) == a && Times(a, 1.0) == a
  {
  }

  lemma Associates(a: real, b: real, c: real)
    ensures Times(Times(a, b), c) == Times(a, Times(b, c))
  {
  }
}
