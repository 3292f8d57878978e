/** What the W4A8 product approximates: the product of the unquantised activation with the dequantised
    weights, each input scaled by its own group, and how far from it the result can be. */
module MarlinError {
  import opened MarlinGemm
  import opened Rounding

  /** The sum over the first `upto` inputs of activation times weight times the scale of the input's group. */
  function ExactSum(x: seq<real>, w: seq<seq<int>>, s: seq<seq<real>>, b: seq<real>, n: nat, k: nat, groupSize: int,
                    o: nat, upto: nat): real
    requires WellShaped(w, s, b, n, k, groupSize) && |x| == k && o < n && upto <= k
  {
    if upto == 0 then 0.0
    else
      var i := upto - 1;
      GroupInside(k, groupSize, i);
      ExactSum(x, w, s, b, n, k, groupSize, o, i)
      + Term(x[i], w[o][i], s[if groupSize > 0 then i / groupSize else 0][o])
  }

  /** How far the sum may be off when activations are off by at most ex and scales by at most es. */
  function Slack(x: seq<real>, w: seq<seq<int>>, s: seq<seq<real>>, b: seq<real>, n: nat, k: nat, groupSize: int,
                 o: nat, upto: nat, ex: real, es: real): real
    requires WellShaped(w, s, b, n, k, groupSize) && |x| == k && o < n && upto <= k
  {
    if upto == 0 then 0.0
    else
      var i := upto - 1;
      GroupInside(k, groupSize, i);
      Slack(x, w, s, b, n, k, groupSize, o, i, ex, es)
      + TermSlack(x[i], w[o][i], s[if groupSize > 0 then i / groupSize else 0][o], ex, es)
  }

  function Term(x: real, w: int, s: real): real {
    Triple(x, w as real, s)
  }

  function TermSlack(x: real, w: int, s: real, ex: real, es: real): real {
    Times(Abs(w as real), Abs(x) * es + Abs(s) * ex + ex * es)
  }

  function Triple(a: real, b: real, c: real): real {
    a * b * c
  }

  // ---- one term ----

  lemma TimesMono(a: real, b: real, c: real)
    requires 0.0 <= a && b <= c
    ensures a * b <= a * c
  {
    NotNegative(c - b, a);
    Distribute(c, b, a);
  }

  lemma AbsTimes(a: real, b: real)
    ensures Abs(a * b) == Abs(a) * Abs(b)
  {
  }

  lemma AbsMono(a: real, d: real, e: real)
    requires Abs(d) <= e
    ensures Abs(Times(a, d)) <= Times(Abs(a), e)
  {
    hide Abs;
    AbsTimes(a, d);
    TimesMono(Abs(a), Abs(d), e);
  }

  lemma AbsBoth(d: real, e: real, d': real, e': real)
    requires Abs(d) <= e && Abs(d') <= e'
    ensures Abs(Times(d, d')) <= Times(e, e')
  {
    hide Abs;
    AbsMono(d, d', e');
    TimesMono(e', Abs(d), e);
  }

  /** How much the product of x - d and s - d' misses that of x and s. */
  function Missing(x: real, s: real, d: real, d': real): real {
    Times(x, d') + Times(s, d) - Times(d, d')
  }

  lemma MissingBound(x: real, s: real, d: real, d': real, ex: real, es: real)
    requires Abs(d) <= ex && Abs(d') <= es
    ensures Abs(Missing(x, s, d, d')) <= Times(Abs(x), es) + Times(Abs(s), ex) + Times(ex, es)
  {
    hide Times;
    AbsMono(x, d', es);
    AbsMono(s, d, ex);
    AbsBoth(d, ex, d', es);
  }

  lemma Misses(x: real, s: real, d: real, d': real, xq: real, sq: real)
    requires d == x - xq && d' == s - sq
    ensures Times(xq, sq) == Times(x, s) - Missing(x, s, d, d')
  {
    assert xq * sq == (x - d) * (s - d');
  }

  lemma Around(x: real, w: real, s: real)
    ensures Triple(x, w, s) == Times(w, Times(x, s))
  {
  }

  /** xq and sq stand for activation and scale. */
  lemma {:induction false} TermError(x: real, xq: real, w: int, s: real, sq: real, ex: real, es: real)
    requires Abs(x - xq) <= ex && Abs(s - sq) <= es
    ensures Abs(Triple(xq, w as real, sq) - Term(x, w, s)) <= TermSlack(x, w, s, ex, es)
  {
    hide Times, Triple, Missing;
    var y, d, d' := w as real, x - xq, s - sq;
    var off := Missing(x, s, d, d');
    MissingBound(x, s, d, d', ex, es);
    Misses(x, s, d, d', xq, sq);
    Around(xq, y, sq);
    Around(x, y, s);
    TimesMinus(y, Times(x, s), off);
    AbsMono(y, off, Times(Abs(x), es) + Times(Abs(s), ex) + Times(ex, es));
    SlackIs(x, w, s, ex, es);
  }

  lemma SlackIs(x: real, w: int, s: real, ex: real, es: real)
    ensures TermSlack(x, w, s, ex, es)
            == Times(Abs(w as real), Times(Abs(x), es) + Times(Abs(s), ex) + Times(ex, es))
  {
    hide Abs;
  }

  /** How far a code times its unit is from v. */
  function Off(v: real, code: int, unit: real): real {
    Abs(v - Times(code as real, unit))
  }

  lemma IntTimes(a: int, b: int)
    ensures (a * b) as real == a as real * b as real
  {
  }

  lemma Codes(q: int, w: int, c: int, a: real, t: real)
    ensures Times(Times(a, t), CodeTerm(q, w, c) as real)
            == Triple(Times(q as real, a), w as real, Times(c as real, t))
  {
    IntTimes(q, w);
    IntTimes(q * w, c);
    var x, y, z := q as real, w as real, c as real;
    assert a * t * (x * y * z) == (x * a) * y * (z * t);
  }

  lemma CodedTerm(x: real, q: int, w: int, s: real, c: int, a: real, t: real, ex: real, es: real)
    requires Off(x, q, a) <= ex && Off(s, c, t) <= es
    ensures Abs(Times(Times(a, t), CodeTerm(q, w, c) as real) - Term(x, w, s)) <= TermSlack(x, w, s, ex, es)
  {
    hide Abs, CodeTerm, Term, TermSlack, Times, Triple;
    Codes(q, w, c, a, t);
    TermError(x, Times(q as real, a), w, s, Times(c as real, t), ex, es);
  }

  /** The integer sum, scaled, against the exact one. */
  lemma {:induction false} SumError(x: seq<real>, w: seq<seq<int>>, s: seq<seq<real>>, b: seq<real>, n: nat, k: nat,
                                    groupSize: int, o: nat, upto: nat, a: real, t: real, ex: real, es: real)
    requires WellShaped(w, s, b, n, k, groupSize) && |x| == k && o < n && upto <= k
    requires forall i :: 0 <= i < k ==> Off(x[i], TokenCode(x[i], TokenMax(x)), a) <= ex
    requires forall g :: 0 <= g < |s| ==> Off(s[g][o], ScaleCode(s[g][o], MatrixMax(s)), t) <= es
    requires forall i :: 0 <= i < k ==> GroupOf(i, groupSize) < |s|
    ensures Abs(Times(Times(a, t), PlainSum(x, w[o], s, o, groupSize, upto) as real)
                - ExactSum(x, w, s, b, n, k, groupSize, o, upto))
            <= Slack(x, w, s, b, n, k, groupSize, o, upto, ex, es)
  {
    hide TokenMax, TokenCode, ScaleCode, MatrixMax, TermSlack, Off, CodeTerm, Term, Times;
    if upto == 0 {
      TimesUnits(Times(a, t));
    } else {
      var i := upto - 1;
      SumError(x, w, s, b, n, k, groupSize, o, i, a, t, ex, es);
      GroupInside(k, groupSize, i);
      var g := if groupSize > 0 then i / groupSize else 0;
      var q, c := TokenCode(x[i], TokenMax(x)), ScaleCode(s[g][o], MatrixMax(s));
      CodedTerm(x[i], q, w[o][i], s[g][o], c, a, t, ex, es);
      TimesPlus(Times(a, t), PlainSum(x, w[o], s, o, groupSize, i), CodeTerm(q, w[o][i], c));
    }
  }

  lemma TimesPlus(f: real, p: int, q: int)
    ensures Times(f, (p + q) as real) == Times(f, p as real) + Times(f, q as real)
  {
    assert (p + q) as real == p as real + q as real;
  }

  // ---- the codes ----

  lemma {:induction false} RoundedOff(v: real, unit: real, r: real, n: int)
    requires unit > 0.0 && r == v / unit && -0.5 <= n as real - r <= 0.5
    ensures Off(v, n, unit) <= unit / 2.0
    ensures n as real == r ==> Off(v, n, unit) == 0.0
  {
    hide Abs;
    DivMul(v, unit);
    HalfScale(n as real, r, unit);
    Mirror(v, n as real * unit);
    if n as real == r {
      NotOff(v, unit, r, n);
    }
  }

  lemma NotOff(v: real, unit: real, r: real, n: int)
    requires n as real == r && r * unit == v
    ensures Off(v, n, unit) == 0.0
  {
    var x := n as real;
    assert x * unit == v;
  }

  lemma Mirror(a: real, b: real)
    ensures Abs(a - b) == Abs(b - a) && (a == b ==> Abs(a - b) == 0.0)
  {
  }

  lemma WholeRatio(r: real)
    requires r.Floor as real == r
    ensures HalfAway(r) as real == r && HalfEven(r) as real == r
  {
    HalfAwayOfInt(r.Floor);
    HalfEvenOfInt(r.Floor);
  }

  lemma Reciprocal(v: real, max: real, unit: real, f: real, c: real, y: real)
    requires max > 0.0 && c > 0.0 && unit == max / c && f == c / max && y == v * f
    ensures unit > 0.0 && y == v / unit
  {
    DivMul(c, max);
    DivMul(max, c);
    FourFactors(v, f, unit, c, max);
    Cancel(Times(Times(v, f), unit), v, c);
    Undo(v, unit, y);
  }

  lemma FourFactors(v: real, f: real, unit: real, c: real, max: real)
    requires Times(unit, c) == max && Times(f, max) == c
    ensures Times(Times(Times(v, f), unit), c) == Times(v, c)
  {
    hide Times;
    Associates(Times(v, f), unit, c);
    Associates(v, f, max);
  }

  lemma Cancel(a: real, b: real, c: real)
    requires c > 0.0 && a * c == b * c
    ensures a == b
  {
    if a > b {
      MulOrder(a, b, c);
    }
    if b > a {
      MulOrder(b, a, c);
    }
  }

  /** An activation's code fits 8 bits and is its value in units of the token's scale, rounded. */
  lemma {:induction false} TokenCodeIs(v: real, max: real)
    requires max > 0.0
    ensures Abs(v) <= max ==> -127 <= TokenCode(v, max) <= 127
    ensures Off(v, TokenCode(v, max), max / 127.0) <= max / 127.0 / 2.0
    ensures Whole(v, max / 127.0) ==> Off(v, TokenCode(v, max), max / 127.0) == 0.0
  {
    hide Abs, HalfAway, Off;
    var unit := max / 127.0;
    var y := v * (127.0 / max);
    Reciprocal(v, max, unit, 127.0 / max, 127.0, y);
    var r := v / unit;
    assert TokenCode(v, max) == HalfAway(y);
    HalfAwayNear(r);
    RoundedOff(v, unit, r, HalfAway(r));
    if Whole(v, unit) {
      WholeRatio(r);
    }
    if Abs(v) <= max {
      Ratio(v, max, 127.0, unit);
      HalfAwayBounded(r, 127);
    }
  }

  lemma HalfAwayBounded(r: real, n: int)
    requires -(n as real) <= r <= n as real
    ensures -n <= HalfAway(r) <= n
  {
    HalfAwayNear(r);
  }

  /** A scale's code is its value in units of the largest over 4096, rounded. */
  lemma {:induction false} ScaleCodeIs(v: real, max: real)
    requires max > 0.0
    ensures Off(v, ScaleCode(v, max), max / 4096.0) <= max / 4096.0 / 2.0
    ensures Whole(v, max / 4096.0) ==> Off(v, ScaleCode(v, max), max / 4096.0) == 0.0
  {
    hide Abs, HalfEven, Off;
    var unit := max / 4096.0;
    var r := v / max * 4096.0;
    DivMul(v, max);
    DivMul(max, 4096.0);
    assert r * unit == v / max * (4096.0 * unit);
    Undo(v, unit, r);
    HalfEvenNear(r);
    RoundedOff(v, unit, r, HalfEven(r));
    if Whole(v, unit) {
      WholeRatio(r);
    }
  }

  // ---- the product ----

  lemma SameMax(s: seq<seq<real>>, m: real)
    requires MatrixMax(s) > 0.0 && IsMatrixMax(s, m)
    ensures MatrixMax(s) == m
  {
  }

  lemma SameAbsMax(x: seq<real>, m: real)
    requires IsAbsMax(x, m)
    ensures TokenMax(x) == if m > 0.0000000001 then m else 0.0000000001
  {
    var i :| 0 <= i < |x| && Abs(x[i]) == m;
    assert Abs(x[i]) <= AbsMax(x);
  }

  /** Every output is within the slack of half a unit per activation and per scale of the exact product, a
      unit being absmax / 127 of the token and max / 4096 of the scales; and it is the exact product when
      activations and scales are whole numbers of units. The layer has an error instead of a product iff it
      has no two groups. */
  lemma {:induction false} ProductIs(x: seq<real>, w: seq<seq<int>>, s: seq<seq<real>>, b: seq<real>, n: nat, k: nat,
                                     groupSize: int, o: nat, absmax: real, top: real)
    requires WellShaped(w, s, b, n, k, groupSize) && |x| == k && o < n
    requires IsAbsMax(x, absmax) && IsMatrixMax(s, top)
    ensures var r := PlainProduct(x, w, s, b, n, k, groupSize);
      var exact := ExactSum(x, w, s, b, n, k, groupSize, o, k) + b[o];
      var unit := (if absmax > 0.0000000001 then absmax else 0.0000000001) / 127.0;
      var step := top / 4096.0;
      && step > 0.0
      && (r.TypeError? <==> groupSize <= 0 || k / groupSize <= 1)
      && (r.Ok? ==> Abs(r.row[o] - exact) <= Slack(x, w, s, b, n, k, groupSize, o, k, unit / 2.0, step / 2.0))
      && (r.Ok? && (forall i :: 0 <= i < k ==> Whole(x[i], unit)) && (forall g :: 0 <= g < |s| ==> Whole(s[g][o], step))
          ==> r.row[o] == exact)
  {
    hide WellShaped, TokenCode, ScaleCode, MatrixMax, Whole, ExactSum, Slack, PlainSum, Off, IsAbsMax, IsMatrixMax,
         Abs, Times;
    Shapes(w, s, b, n, k, groupSize);
    SameMax(s, top);
    SameAbsMax(x, absmax);
    PlainAtIs(x, w, s, b, n, k, groupSize, o);
    var unit, step := TokenMax(x) / 127.0, top / 4096.0;
    forall i | 0 <= i < k
      ensures Off(x[i], TokenCode(x[i], TokenMax(x)), unit) <= unit / 2.0
      ensures Whole(x[i], unit) ==> Off(x[i], TokenCode(x[i], TokenMax(x)), unit) <= 0.0
    {
      TokenCodeIs(x[i], TokenMax(x));
    }
    forall g | 0 <= g < |s|
      ensures Off(s[g][o], ScaleCode(s[g][o], MatrixMax(s)), step) <= step / 2.0
      ensures Whole(s[g][o], step) ==> Off(s[g][o], ScaleCode(s[g][o], MatrixMax(s)), step) <= 0.0
    {
      ScaleCodeIs(s[g][o], top);
    }
    SumError(x, w, s, b, n, k, groupSize, o, k, unit, step, unit / 2.0, step / 2.0);
    if (forall i :: 0 <= i < k ==> Whole(x[i], unit)) && (forall g :: 0 <= g < |s| ==> Whole(s[g][o], step)) {
      SumError(x, w, s, b, n, k, groupSize, o, k, unit, step, 0.0, 0.0);
      NoSlack(x, w, s, b, n, k, groupSize, o, k);
    }
  }

  lemma Shapes(w: seq<seq<int>>, s: seq<seq<real>>, b: seq<real>, n: nat, k: nat, groupSize: int)
    requires WellShaped(w, s, b, n, k, groupSize)
    ensures MatrixMax(s) > 0.0 && |b| == n == |w|
    ensures forall g :: 0 <= g < |s| ==> |s[g]| == n
    ensures forall i :: 0 <= i < k ==> GroupOf(i, groupSize) < |s|
    ensures forall o :: 0 <= o < n ==> |w[o]| == k
  {
    hide MatrixMax, GroupOf;
    GroupsInside(k, groupSize);
  }

  lemma {:induction false} PlainAtIs(x: seq<real>, w: seq<seq<int>>, s: seq<seq<real>>, b: seq<real>, n: nat, k: nat,
                                     groupSize: int, o: nat)
    requires WellShaped(w, s, b, n, k, groupSize) && |x| == k && o < n
    requires forall i :: 0 <= i < k ==> GroupOf(i, groupSize) < |s|
    ensures PlainAt(x, w, s, b, n, k, groupSize, o)
            == Times(Times(TokenMax(x) / 127.0, MatrixMax(s) / 4096.0), PlainSum(x, w[o], s, o, groupSize, k) as real)
               + b[o]
  {
    hide PlainSum, TokenMax, MatrixMax, GroupOf;
  }

  lemma {:induction false} NoSlack(x: seq<real>, w: seq<seq<int>>, s: seq<seq<real>>, b: seq<real>, n: nat, k: nat,
                                   groupSize: int, o: nat, upto: nat)
    requires WellShaped(w, s, b, n, k, groupSize) && |x| == k && o < n && upto <= k
    ensures Slack(x, w, s, b, n, k, groupSize, o, upto, 0.0, 0.0) == 0.0
  {
    hide TermSlack;
    if upto > 0 {
      NoSlack(x, w, s, b, n, k, groupSize, o, upto - 1);
      GroupInside(k, groupSize, upto - 1);
      NoTermSlack(x[upto - 1], w[o][upto - 1], s[if groupSize > 0 then (upto - 1) / groupSize else 0][o]);
    }
  }

  lemma NoTermSlack(x: real, w: int, s: real)
    ensures TermSlack(x, w, s, 0.0, 0.0) == 0.0
  {
    assert Abs(x) * 0.0 + Abs(s) * 0.0 + 0.0 * 0.0 == 0.0;
  }
}
