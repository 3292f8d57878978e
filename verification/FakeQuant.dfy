/** Symmetric fake quantisation in exact arithmetic: a group is scaled by its largest magnitude,
    rounded to integers and scaled back. */
module FakeQuant {
  import opened IndexArith
  import opened Rounding
  import opened Vectors

  const FLOOR: real := 0.00000001

  function Pow2(n: nat): nat {
    if n == 0 then 1 else 2 * Pow2(n - 1)
  }

  function QMax(bits: nat): int
    requires bits >= 1
  {
    Pow2(bits - 1) - 1
  }

  lemma QMaxPositive(bits: nat)
    requires bits >= 2
    ensures QMax(bits) >= 1
  {
    assert Pow2(bits - 1) == 2 * Pow2(bits - 2);
    PowPositive(bits - 2);
  }

  lemma {:induction false} PowPositive(n: nat)
    ensures Pow2(n) >= 1
  {
    if n > 0 {
      PowPositive(n - 1);
    }
  }

  /** amax().clamp_min(1e-8) / qmax */
  function Scale(x: seq<real>, qmax: int): (s: real)
    requires qmax >= 1
    ensures s > 0.0
  {
    Max(AbsMax(x), FLOOR) / qmax as real
  }

  function Clamp(q: int, lo: int, hi: int): int {
    if q < lo then lo else if q > hi then hi else q
  }

  /** clamp(round(x / scale), -(qmax + 1), qmax) */
  function Code(v: real, scale: real, qmax: int): int
    requires scale > 0.0
  {
    Clamp(HalfEven(v / scale), -(qmax + 1), qmax)
  }

  function Requant(v: real, scale: real, qmax: int): real
    requires scale > 0.0
  {
    Code(v, scale, qmax) as real * scale
  }

  /** One group (or one token): every element replaced by its code times the scale. */
  function QuantGroup(x: seq<real>, qmax: int): (r: seq<real>)
    requires qmax >= 1
    ensures |r| == |x|
    ensures forall i :: 0 <= i < |x| ==> r[i] == Requant(x[i], Scale(x, qmax), qmax)
  {
    hide Requant, Scale;
    var s := Scale(x, qmax);
    var r := seq(|x|, i requires 0 <= i < |x| => Requant(x[i], s, qmax));
    assert forall i :: 0 <= i < |x| ==> r[i] == Requant(x[i], s, qmax);
    r
  }

  /** For a scale that admits v: the code is the plain rounding - the clamp never binds - and the
      element moves by at most half a scale. */
  lemma CodeBound(v: real, m: real, qmax: int, s: real)
    requires qmax >= 1 && m > 0.0 && Abs(v) <= m && s == m / qmax as real
    ensures s > 0.0
    ensures Code(v, s, qmax) == HalfEven(v / s) && -qmax <= Code(v, s, qmax) <= qmax
    ensures Abs(Requant(v, s, qmax) - v) <= s / 2.0
  {
    hide HalfEven, Abs;
    Ratio(v, m, qmax as real, s);
    var r := v / s;
    HalfEvenBounded(r, qmax);
    HalfEvenNear(r);
    DivMul(v, s);
    HalfScale(HalfEven(r) as real, r, s);
  }

  function Top(x: seq<real>): (m: real)
    ensures m > 0.0 && forall i :: 0 <= i < |x| ==> Abs(x[i]) <= m
  {
    Max(AbsMax(x), FLOOR)
  }

  /** The clamp never binds, and every element moves by at most half a scale. */
  lemma ElementBound(x: seq<real>, qmax: int, i: nat)
    requires qmax >= 1 && i < |x|
    ensures var s := Scale(x, qmax);
      && Code(x[i], s, qmax) == HalfEven(x[i] / s)
      && -qmax <= Code(x[i], s, qmax) <= qmax
      && Abs(QuantGroup(x, qmax)[i] - x[i]) <= s / 2.0
  {
    hide Code, Requant, HalfEven;
    CodeBound(x[i], Top(x), qmax, Scale(x, qmax));
  }

  // ---- idempotence ----

  lemma CodeOfMultiple(v: real, r: real, c: int, qmax: int, s: real)
    requires s > 0.0 && v / s == r && r == c as real && -qmax <= c <= qmax
    ensures Code(v, s, qmax) == c
  {
    HalfEvenOfInt(c);
    assert HalfEven(r) == c;
  }

  lemma ScaledCode(v: real, c: int, qmax: int, s: real, m: real)
    requires qmax >= 1 && s > 0.0 && qmax as real * s == m && -qmax <= c <= qmax && v == c as real * s
    ensures Abs(v) <= m
    ensures c == qmax || c == -qmax ==> Abs(v) == m
    ensures Code(v, s, qmax) == c
  {
    hide Code, HalfEven;
    var x := c as real;
    assert x * s <= qmax as real * s && -(qmax as real) * s <= x * s by {
      if x < qmax as real { MulOrder(qmax as real, x, s); }
      if x > -(qmax as real) { MulOrder(x, -(qmax as real), s); }
    }
    assert v / s == x;
    CodeOfMultiple(v, x, c, qmax, s);
  }

  /** The element of largest magnitude keeps it. */
  lemma TopCode(v: real, m: real, qmax: int, s: real)
    requires qmax >= 1 && m > 0.0 && Abs(v) == m && s == m / qmax as real
    ensures s > 0.0 && (Code(v, s, qmax) == qmax || Code(v, s, qmax) == -qmax)
  {
    var q := qmax as real;
    Ratio(v, m, q, s);
    if v == m {
      assert (q * s) / s == q;
      HalfEvenOfInt(qmax);
    } else {
      assert ((-q) * s) / s == -q;
      HalfEvenOfInt(-qmax);
    }
  }

  lemma {:induction false} RequantBound(v: real, m: real, qmax: int, s: real)
    requires qmax >= 1 && m > 0.0 && Abs(v) <= m && s == m / qmax as real
    ensures s > 0.0 && Abs(Requant(v, s, qmax)) <= m
    ensures Abs(v) == m ==> Abs(Requant(v, s, qmax)) == m
    ensures Requant(Requant(v, s, qmax), s, qmax) == Requant(v, s, qmax)
  {
    hide HalfEven, Code, Abs;
    CodeBound(v, m, qmax, s);
    Ratio(v, m, qmax as real, s);
    var c := Code(v, s, qmax);
    var x := Requant(v, s, qmax);
    ScaledCode(x, c, qmax, s, m);
    if Abs(v) == m {
      TopCode(v, m, qmax, s);
    }
  }

  /** Quantising keeps the group's scale, also below the floor. */
  lemma {:induction false} ScaleKept(x: seq<real>, qmax: int)
    requires qmax >= 1
    ensures Scale(QuantGroup(x, qmax), qmax) == Scale(x, qmax)
  {
    hide Requant, Abs;
    var r, m, s := QuantGroup(x, qmax), Top(x), Scale(x, qmax);
    forall i | 0 <= i < |x|
      ensures Abs(r[i]) <= m && (Abs(x[i]) == m ==> Abs(r[i]) == m)
    {
      RequantBound(x[i], m, qmax, s);
    }
    if AbsMax(x) >= FLOOR {
      var i :| 0 <= i < |x| && Abs(x[i]) == AbsMax(x);
      assert Abs(r[i]) == m;
    }
  }

  /** Quantising a quantised group returns it unchanged. */
  lemma {:induction false} QuantTwice(x: seq<real>, qmax: int)
    requires qmax >= 1
    ensures QuantGroup(QuantGroup(x, qmax), qmax) == QuantGroup(x, qmax)
  {
    hide Requant, Abs;
    var r, m, s := QuantGroup(x, qmax), Top(x), Scale(x, qmax);
    ScaleKept(x, qmax);
    forall i | 0 <= i < |x| ensures QuantGroup(r, qmax)[i] == r[i] {
      RequantBound(x[i], m, qmax, s);
    }
  }

  // ---- weights, grouped along the input dimension ----

  function GroupSize(inf: nat, group: int): (g: nat)
    ensures inf > 0 ==> g > 0
  {
    if group > 0 && inf % group == 0 then group else inf
  }

  /** n groups of g elements each, quantised one by one. */
  function QuantGroups(row: seq<real>, g: nat, n: nat, qmax: int): (r: seq<real>)
    requires qmax >= 1 && |row| == n * g
    ensures |r| == |row|
    decreases n
  {
    if n == 0 then []
    else
      assert n * g == (n - 1) * g + g;
      QuantGroup(row[..g], qmax) + QuantGroups(row[g..], g, n - 1, qmax)
  }

  lemma {:induction false} GroupsTwice(row: seq<real>, g: nat, n: nat, qmax: int)
    requires qmax >= 1 && |row| == n * g
    ensures QuantGroups(QuantGroups(row, g, n, qmax), g, n, qmax) == QuantGroups(row, g, n, qmax)
    decreases n
  {
    hide Scale, Requant, QuantGroup;
    if n > 0 {
      var rest := (n - 1) * g;
      assert n * g == rest + g;
      var head, tail := QuantGroup(row[..g], qmax), QuantGroups(row[g..], g, n - 1, qmax);
      var all := head + tail;
      assert all[..g] == head && all[g..] == tail;
      QuantTwice(row[..g], qmax);
      GroupsTwice(row[g..], g, n - 1, qmax);
      assert QuantGroups(all, g, n, qmax) == QuantGroup(all[..g], qmax) + QuantGroups(all[g..], g, n - 1, qmax);
    }
  }

  lemma GroupCount(inf: nat, group: int)
    requires inf > 0
    ensures inf / GroupSize(inf, group) * GroupSize(inf, group) == inf
  {
    if GroupSize(inf, group) == inf {
      assert inf / inf == 1;
    }
  }

  /** One output row of `fake_quant_weight_sym_group`. */
  function QuantRow(row: seq<real>, bits: nat, group: int): (r: seq<real>)
    requires bits >= 2
    ensures |r| == |row|
  {
    QMaxPositive(bits);
    if row == [] then []
    else
      GroupCount(|row|, group);
      var g := GroupSize(|row|, group);
      QuantGroups(row, g, |row| / g, QMax(bits))
  }

  lemma {:induction false} QuantRowTwice(row: seq<real>, bits: nat, group: int)
    requires bits >= 2
    ensures QuantRow(QuantRow(row, bits, group), bits, group) == QuantRow(row, bits, group)
  {
    QMaxPositive(bits);
    if row != [] {
      GroupCount(|row|, group);
      var g := GroupSize(|row|, group);
      GroupsTwice(row, g, |row| / g, QMax(bits));
    }
  }

  function QuantWeight(w: seq<seq<real>>, bits: nat, group: int): (r: seq<seq<real>>)
    requires bits >= 2
    ensures |r| == |w| && forall o :: 0 <= o < |w| ==> r[o] == QuantRow(w[o], bits, group)
  {
    var r := seq(|w|, o requires 0 <= o < |w| => QuantRow(w[o], bits, group));
    assert forall o :: 0 <= o < |w| ==> r[o] == QuantRow(w[o], bits, group);
    r
  }

  lemma {:induction false} QuantWeightTwice(w: seq<seq<real>>, bits: nat, group: int)
    requires bits >= 2
    ensures QuantWeight(QuantWeight(w, bits, group), bits, group) == QuantWeight(w, bits, group)
  {
    forall o | 0 <= o < |w|
      ensures QuantWeight(QuantWeight(w, bits, group), bits, group)[o] == QuantWeight(w, bits, group)[o]
    {
      QuantRowTwice(w[o], bits, group);
    }
  }

  /** F.linear for one token. */
  function Linear(x: seq<real>, w: seq<seq<real>>, bias: seq<real>): (y: seq<real>)
    requires |bias| == |w|
    ensures |y| == |w|
  {
    seq(|w|, o requires 0 <= o < |w| => Dot(x, w[o]) + bias[o])
  }

  /** A wrapped linear layer. `original` is the weight it was made with. */
  class FakeQuantLinear {
    var weight: seq<seq<real>>
    const bias: seq<real>
    const wBits: nat
    const wGroup: int
    const aBits: nat
    var quantW: bool
    var quantA: bool
    var baked: bool
    ghost const original: seq<seq<real>>

    /** The weight is the original one, or - once baked, however often - its one quantisation. */
    ghost predicate Valid()
      reads this
    {
      && wBits >= 2 && aBits >= 2 && |bias| == |weight| == |original|
      && weight == if baked then QuantWeight(original, wBits, wGroup) else original
    }

    constructor (weight: seq<seq<real>>, bias: seq<real>, wBits: nat, wGroup: int, aBits: nat)
      requires wBits >= 2 && aBits >= 2 && |bias| == |weight|
      ensures Valid() && original == weight && !quantW && !quantA && !baked
    {
      this.weight, this.bias, this.wBits, this.wGroup, this.aBits := weight, bias, wBits, wGroup, aBits;
      quantW, quantA, baked := false, false, false;
      original := weight;
    }

    method BakeInplace()
      requires Valid()
      modifies this`weight, this`baked
      ensures Valid() && baked
      ensures old(baked) ==> weight == old(weight)
    {
      QuantWeightTwice(original, wBits, wGroup);
      weight := QuantWeight(weight, wBits, wGroup);
      baked := true;
    }

    /** Baked or not, and whatever the weight flag of a baked layer says, the layer computes with its
        original weight quantised exactly once. */
    method Forward(x: seq<real>) returns (y: seq<real>)
      requires Valid()
      ensures y == FakeQuantForward(x, original, bias, wBits, wGroup, aBits, quantW || baked, quantA)
      ensures |y| == |original| && forall o :: 0 <= o < |original| ==>
        IsOutput(x, original[o], bias[o], wBits, wGroup, aBits, quantW || baked, quantA, y[o])
    {
      var w := weight;
      if quantW && !baked {
        w := QuantWeight(w, wBits, wGroup);
      }
      var a := x;
      if quantA {
        QMaxPositive(aBits);
        a := QuantGroup(x, QMax(aBits));
      }
      y := Linear(a, w, bias);
      ForwardIs(x, original, bias, wBits, wGroup, aBits, quantW || baked, quantA);
    }
  }

  /** The layer's meaning: a linear map of the (quantised) token by the (quantised) weight. */
  function FakeQuantForward(x: seq<real>, w: seq<seq<real>>, bias: seq<real>, wBits: nat, wGroup: int, aBits: nat,
                            onWeights: bool, onTokens: bool): seq<real>
    requires wBits >= 2 && aBits >= 2 && |bias| == |w|
  {
    QMaxPositive(aBits);
    Linear(
      if onTokens then QuantGroup(x, QMax(aBits)) else x,
      if onWeights then QuantWeight(w, wBits, wGroup) else w,
      bias)
  }

  // ---- what quantising is ----

  /** v stands for x, an element of the run: it is a whole number from -qmax to qmax of the run's largest
      magnitude - no less than 1e-8 - over qmax, and no further than half of that from x. */
  ghost predicate Stands(run: seq<real>, bits: nat, x: real, v: real)
    requires bits >= 1
  {
    exists m :: IsAbsMax(run, m) && Near(m, Pow2(bits - 1) - 1, x, v)
  }

  ghost predicate Near(m: real, qmax: int, x: real, v: real) {
    && qmax >= 1
    && var scale := (if m > 0.00000001 then m else 0.00000001) / qmax as real;
       && scale > 0.0 && Whole(v, scale) && -qmax <= (v / scale).Floor <= qmax && Abs(v - x) <= scale / 2.0
  }

  /** v stands for element i of a row quantised in runs of g. */
  ghost predicate IsElement(row: seq<real>, bits: nat, g: nat, i: nat, v: real)
    requires bits >= 1 && i < |row|
  {
    g > 0 && i / g * g + g <= |row| && Stands(row[i / g * g..i / g * g + g], bits, row[i], v)
  }

  ghost predicate IsQuantised(row: seq<real>, bits: nat, g: nat, r: seq<real>)
    requires bits >= 1
  {
    |r| == |row| && forall i :: 0 <= i < |row| ==> IsElement(row, bits, g, i, r[i])
  }

  /** One output: the bias and the dot product of what stands for token and weight row. */
  ghost predicate IsOutput(x: seq<real>, w: seq<real>, bias: real, wBits: nat, group: int, aBits: nat, onWeights: bool,
                           onTokens: bool, y: real)
    requires wBits >= 1 && aBits >= 1
  {
    exists xq, wq :: y == Dot(xq, wq) + bias
      && (if onTokens then IsQuantised(x, aBits, |x|, xq) else xq == x)
      && if onWeights then IsQuantised(w, wBits, if group > 0 && |w| % group == 0 then group else |w|, wq) else wq == w
  }

  lemma FourAndEightBits()
    ensures QMax(4) == 7 && QMax(8) == 127
  {
    assert Pow2(3) == 8 && Pow2(7) == 128;
  }

  lemma {:induction false} GroupElement(x: seq<real>, bits: nat, i: nat)
    requires bits >= 2 && i < |x| && QMax(bits) >= 1
    ensures Stands(x, bits, x[i], QuantGroup(x, QMax(bits))[i])
  {
    hide Pow2, IsAbsMax, Near, Scale, Requant;
    MaxTaken(x);
    ElementNear(x, QMax(bits), i, Scale(x, QMax(bits)));
  }

  lemma {:induction false} ElementNear(x: seq<real>, qmax: int, i: nat, s: real)
    requires qmax >= 1 && i < |x| && s == Scale(x, qmax)
    ensures Near(AbsMax(x), qmax, x[i], QuantGroup(x, qmax)[i])
  {
    hide Requant, Code, Abs, QuantGroup, HalfEven, Near, Scale;
    ElementBound(x, qmax, i);
    RequantIs(x[i], s, qmax);
    NearIs(x, qmax, x[i], QuantGroup(x, qmax)[i], Code(x[i], s, qmax), s);
  }

  lemma NearIs(run: seq<real>, qmax: int, x: real, v: real, c: int, s: real)
    requires qmax >= 1 && s == Scale(run, qmax)
    requires v == c as real * s && -qmax <= c <= qmax && Abs(v - x) <= s / 2.0
    ensures Near(AbsMax(run), qmax, x, v)
  {
    hide Abs, Whole;
    CodeWhole(v, c, s);
  }

  lemma RequantIs(v: real, scale: real, qmax: int)
    requires scale > 0.0
    ensures Requant(v, scale, qmax) == Code(v, scale, qmax) as real * scale
  {
  }

  lemma MaxTaken(x: seq<real>)
    requires x != []
    ensures IsAbsMax(x, AbsMax(x))
  {
    assert Abs(x[0]) <= AbsMax(x);
  }

  lemma CodeWhole(v: real, c: int, s: real)
    requires s > 0.0 && v == c as real * s
    ensures Whole(v, s) && (v / s).Floor == c
  {
    Undo(v, s, c as real);
  }

  lemma {:induction false} GroupsAt(row: seq<real>, g: nat, n: nat, qmax: int, b: nat, at: nat)
    requires qmax >= 1 && |row| == n * g && b < n && at == b * g
    ensures at + g <= |row|
    ensures QuantGroups(row, g, n, qmax)[at..at + g] == QuantGroup(row[at..at + g], qmax)
    decreases n
  {
    hide QuantGroup, QuantGroups, Scale, Requant;
    PeelGroup(row, g, n, qmax);
    var head, tail := QuantGroup(row[..g], qmax), QuantGroups(row[g..], g, n - 1, qmax);
    if b == 0 {
      assert row[0..g] == row[..g];
      assert (head + tail)[0..g] == head;
    } else {
      Before(b, g, at);
      GroupsAt(row[g..], g, n - 1, qmax, b - 1, at - g);
      assert row[g..][at - g..at] == row[at..at + g];
      assert (head + tail)[at..at + g] == tail[at - g..at];
    }
  }

  lemma Before(b: nat, g: nat, at: nat)
    requires b > 0 && at == b * g
    ensures at >= g && at - g == (b - 1) * g
  {
  }

  lemma PeelGroup(row: seq<real>, g: nat, n: nat, qmax: int)
    requires qmax >= 1 && |row| == n * g && n > 0
    ensures |row| >= g && |row[g..]| == (n - 1) * g
    ensures QuantGroups(row, g, n, qmax) == QuantGroup(row[..g], qmax) + QuantGroups(row[g..], g, n - 1, qmax)
  {
    assert n * g == (n - 1) * g + g;
  }

  lemma Split(i: nat, g: nat, n: nat)
    requires g > 0 && i < n * g
    ensures i / g < n && i / g * g + g <= n * g && i == i / g * g + i % g
  {
    DivBelow(i, g, n);
    MulMono(i / g + 1, n, g);
    assert (i / g + 1) * g == i / g * g + g;
  }

  /** Every element of a quantised weight row, whatever the group size: the group is the asked one if it is
      positive and divides the width, and the whole row if not. */
  lemma {:induction false} QuantRowIs(row: seq<real>, bits: nat, group: int)
    requires bits >= 2
    ensures IsQuantised(row, bits, if group > 0 && |row| % group == 0 then group else |row|, QuantRow(row, bits, group))
  {
    hide QuantGroup, QuantGroups, Stands, QMax, Pow2, IsElement;
    QMaxPositive(bits);
    var g := GroupSize(|row|, group);
    forall i | 0 <= i < |row| ensures IsElement(row, bits, g, i, QuantRow(row, bits, group)[i]) {
      GroupCount(|row|, group);
      GroupsElement(row, bits, g, |row| / g, i);
    }
  }

  lemma {:induction false} GroupsElement(row: seq<real>, bits: nat, g: nat, n: nat, i: nat)
    requires bits >= 2 && QMax(bits) >= 1 && g > 0 && |row| == n * g && i < |row|
    ensures IsElement(row, bits, g, i, QuantGroups(row, g, n, QMax(bits))[i])
  {
    hide QuantGroup, QuantGroups, Stands, QMax, Pow2, Scale, Requant;
    Split(i, g, n);
    var b, j := i / g, i % g;
    var at := b * g;
    GroupsAt(row, g, n, QMax(bits), b, at);
    GroupElement(row[at..at + g], bits, j);
    assert row[at..at + g][j] == row[i];
    assert QuantGroups(row, g, n, QMax(bits))[at..at + g][j] == QuantGroups(row, g, n, QMax(bits))[i];
  }

  /** So is a quantised token, in one run. */
  lemma {:induction false} QuantTokenIs(x: seq<real>, bits: nat)
    requires bits >= 2 && QMax(bits) >= 1
    ensures IsQuantised(x, bits, |x|, QuantGroup(x, QMax(bits)))
  {
    hide QuantGroup, Stands, QMax, Pow2, Scale, Requant;
    forall i | 0 <= i < |x| ensures IsElement(x, bits, |x|, i, QuantGroup(x, QMax(bits))[i]) {
      GroupElement(x, bits, i);
      OneRun(i, |x|);
      assert x[0..|x|] == x;
    }
  }

  lemma OneRun(i: nat, n: nat)
    requires i < n
    ensures i / n * n == 0
  {
    assert i / n == 0;
  }

  /** What forward computes, without the functions it is computed by. */
  lemma {:induction false} ForwardIs(x: seq<real>, w: seq<seq<real>>, bias: seq<real>, wBits: nat, wGroup: int,
                                     aBits: nat, onWeights: bool, onTokens: bool)
    requires wBits >= 2 && aBits >= 2 && |bias| == |w|
    ensures var y := FakeQuantForward(x, w, bias, wBits, wGroup, aBits, onWeights, onTokens);
      |y| == |w| && forall o :: 0 <= o < |w| ==>
        IsOutput(x, w[o], bias[o], wBits, wGroup, aBits, onWeights, onTokens, y[o])
  {
    hide QuantGroup, QuantRow, QuantWeight, IsQuantised, Dot, QMax, Scale, Requant;
    var y := FakeQuantForward(x, w, bias, wBits, wGroup, aBits, onWeights, onTokens);
    QMaxPositive(aBits);
    var xq := if onTokens then QuantGroup(x, QMax(aBits)) else x;
    QuantTokenIs(x, aBits);
    forall o | 0 <= o < |w|
      ensures IsOutput(x, w[o], bias[o], wBits, wGroup, aBits, onWeights, onTokens, y[o])
    {
      QuantRowIs(w[o], wBits, wGroup);
      var wq := if onWeights then QuantRow(w[o], wBits, wGroup) else w[o];
      assert y[o] == Dot(xq, wq) + bias[o];
    }
  }
}
