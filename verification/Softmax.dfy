/** Online softmax: the running (max, sum, accumulator) that the attention kernels carry from tile
    to tile, and what it means.

    The exponential and the logarithm are a parameter of which only the group laws are used, so
    every result holds for every pair of functions obeying them. Minus infinity is a score of its
    own whose exponential is zero. */
module Softmax {

  datatype Score = NegInf | Fin(value: real)

  /** One key as a kernel sees it: its score against the query, and its value row. */
  datatype Key = Key(score: Score, value: seq<real>)

  datatype ExpLog = ExpLog(exp: real -> real, log: real -> real) {

    ghost predicate Laws() {
      && (forall x: real :: exp(x) > 0.0)
      && (forall a: real, b: real :: AddLaw(a, b))
      && (forall x: real :: x > 0.0 ==> exp(log(x)) == x)
    }

    ghost predicate AddLaw(a: real, b: real) {
      exp(a + b) == exp(a) * exp(b)
    }

    /** exp(s) */
    function Weight(s: Score): real {
      if s.NegInf? then 0.0 else exp(s.value)
    }

    /** exp(s - m), for a finite m */
    function Rel(s: Score, m: real): real {
      if s.NegInf? then 0.0 else exp(s.value - m)
    }
  }

  predicate Wide(keys: seq<Key>, dv: nat) {
    forall i :: 0 <= i < |keys| ==> |keys[i].value| == dv
  }

  predicate AllFinite(keys: seq<Key>) {
    forall i :: 0 <= i < |keys| ==> keys[i].score.Fin?
  }

  // ---- plain sums over all keys: the reference ----

  function SumWeights(E: ExpLog, keys: seq<Key>): real {
    if keys == [] then 0.0
    else SumWeights(E, keys[..|keys| - 1]) + E.Weight(keys[|keys| - 1].score)
  }

  function SumValues(E: ExpLog, keys: seq<Key>, dv: nat, d: nat): real
    requires Wide(keys, dv) && d < dv
  {
    if keys == [] then 0.0
    else
      var last := keys[|keys| - 1];
      SumValues(E, keys[..|keys| - 1], dv, d) + E.Weight(last.score) * last.value[d]
  }

  datatype Sink = NoSink | WithSink(logit: real)

  /** What the sink adds to the softmax denominator. */
  function SinkWeight(E: ExpLog, sink: Sink): real {
    if sink.NoSink? then 0.0 else E.exp(sink.logit)
  }

  /** A stored output element: 0/0 is a NaN. */
  datatype Element = NaN | Num(r: real)

  /** Plain one-pass attention: each value weighed by exp(score), over the sum of all weights plus
      the sink. With no weight at all there is nothing to divide by. */
  function Attention(E: ExpLog, keys: seq<Key>, dv: nat, d: nat, sink: Sink): Element
    requires Wide(keys, dv) && d < dv
  {
    var total := SumWeights(E, keys) + SinkWeight(E, sink);
    if total == 0.0 then NaN else Num(SumValues(E, keys, dv, d) / total)
  }

  // ---- one tile of the running form ----

  datatype State = State(max: Score, sum: real, acc: seq<real>)

  function Zeros(n: nat): (z: seq<real>)
    ensures |z| == n
  {
    seq(n, _ => 0.0)
  }

  function Initial(dv: nat): State {
    State(NegInf, 0.0, Zeros(dv))
  }

  function RelSum(E: ExpLog, tile: seq<Key>, m: real): real {
    if tile == [] then 0.0
    else RelSum(E, tile[..|tile| - 1], m) + E.Rel(tile[|tile| - 1].score, m)
  }

  function RelValues(E: ExpLog, tile: seq<Key>, m: real, dv: nat, d: nat): real
    requires Wide(tile, dv) && d < dv
  {
    if tile == [] then 0.0
    else
      var last := tile[|tile| - 1];
      RelValues(E, tile[..|tile| - 1], m, dv, d) + E.Rel(last.score, m) * last.value[d]
  }

  /** The loop body the kernels share: rescale the old sum and accumulator from the old maximum to
      m, then add the tile's weights relative to m. */
  function Step(E: ExpLog, st: State, tile: seq<Key>, m: real): (next: State)
    requires Wide(tile, |st.acc|)
    ensures next.max == Fin(m) && |next.acc| == |st.acc|
  {
    var reScale := E.Rel(st.max, m);
    State(
      Fin(m),
      st.sum * reScale + RelSum(E, tile, m),
      seq(|st.acc|, d requires 0 <= d < |st.acc| => st.acc[d] * reScale + RelValues(E, tile, m, |st.acc|, d)))
  }

  /** x, kept relative to the running maximum m, stands for the plain quantity. */
  ghost predicate Means(E: ExpLog, m: Score, x: real, plain: real) {
    if m.NegInf? then x == 0.0 && plain == 0.0 else x * E.exp(m.value) == plain
  }

  /** st stands for the keys seen so far: scaled back by exp(max) it holds the plain sums. */
  ghost predicate Represents(E: ExpLog, st: State, keys: seq<Key>) {
    && Wide(keys, |st.acc|)
    && Means(E, st.max, st.sum, SumWeights(E, keys))
    && forall d :: 0 <= d < |st.acc| ==> Means(E, st.max, st.acc[d], SumValues(E, keys, |st.acc|, d))
  }

  lemma NothingSeen(E: ExpLog, dv: nat)
    ensures Represents(E, Initial(dv), [])
    ensures forall d :: 0 <= d < dv ==> Initial(dv).acc[d] == 0.0
  {
  }

  // ---- maxima ----

  predicate AtMost(a: Score, b: Score) {
    a.NegInf? || (b.Fin? && a.value <= b.value)
  }

  function Higher(a: Score, b: Score): Score {
    if AtMost(a, b) then b else a
  }

  function MaxScore(keys: seq<Key>): Score {
    if keys == [] then NegInf
    else Higher(MaxScore(keys[..|keys| - 1]), keys[|keys| - 1].score)
  }

  /** m is the largest score among keys (minus infinity when every key is masked). */
  ghost predicate IsMax(m: Score, keys: seq<Key>) {
    && (forall i :: 0 <= i < |keys| ==> AtMost(keys[i].score, m))
    && (m.Fin? ==> exists i :: 0 <= i < |keys| && keys[i].score == m)
  }

  lemma {:induction false} MaxScoreIsMax(keys: seq<Key>)
    ensures IsMax(MaxScore(keys), keys)
  {
    if keys != [] {
      var init := keys[..|keys| - 1];
      MaxScoreIsMax(init);
      assert forall i :: 0 <= i < |init| ==> keys[i] == init[i];
      assert keys[|keys| - 1].score == MaxScore(keys) || (MaxScore(keys) == MaxScore(init));
    }
  }

  lemma HigherIsMax(a: Score, b: Score, ka: seq<Key>, kb: seq<Key>)
    requires IsMax(a, ka) && IsMax(b, kb)
    ensures IsMax(Higher(b, a), ka + kb)
  {
    var all := ka + kb;
    forall i | 0 <= i < |all| ensures AtMost(all[i].score, Higher(b, a)) {
      assert i < |ka| ==> all[i] == ka[i];
      assert i >= |ka| ==> all[i] == kb[i - |ka|];
    }
    if Higher(b, a).Fin? {
      if Higher(b, a) == a {
        var i :| 0 <= i < |ka| && ka[i].score == a;
        assert all[i].score == a;
      } else {
        var i :| 0 <= i < |kb| && kb[i].score == b;
        assert all[|ka| + i].score == b;
      }
    }
  }

  // ---- sums ----

  lemma {:induction false} SumsAppend(E: ExpLog, a: seq<Key>, b: seq<Key>, dv: nat)
    requires Wide(a, dv) && Wide(b, dv)
    ensures Wide(a + b, dv)
    ensures SumWeights(E, a + b) == SumWeights(E, a) + SumWeights(E, b)
    ensures forall d :: 0 <= d < dv ==> SumValues(E, a + b, dv, d) == SumValues(E, a, dv, d) + SumValues(E, b, dv, d)
  {
    if b == [] {
      assert a + b == a;
    } else {
      SumsAppend(E, a, b[..|b| - 1], dv);
      assert (a + b)[..|a + b| - 1] == a + b[..|b| - 1];
    }
  }

  /** Masked keys weigh nothing. */
  lemma {:induction false} SumsMasked(E: ExpLog, keys: seq<Key>, dv: nat)
    requires Wide(keys, dv)
    requires forall i :: 0 <= i < |keys| ==> keys[i].score.NegInf?
    ensures SumWeights(E, keys) == 0.0
    ensures forall d :: 0 <= d < dv ==> SumValues(E, keys, dv, d) == 0.0
  {
    if keys != [] {
      SumsMasked(E, keys[..|keys| - 1], dv);
    }
  }

  lemma {:induction false} SumWeightsSign(E: ExpLog, keys: seq<Key>)
    requires E.Laws()
    ensures SumWeights(E, keys) >= 0.0
    ensures SumWeights(E, keys) > 0.0 <==> exists i :: 0 <= i < |keys| && keys[i].score.Fin?
  {
    if keys != [] {
      var init := keys[..|keys| - 1];
      SumWeightsSign(E, init);
      assert forall i :: 0 <= i < |init| ==> keys[i] == init[i];
      if i :| 0 <= i < |keys| && keys[i].score.Fin? {
        assert i < |init| ==> init[i].score.Fin?;
      }
    }
  }

  lemma RelWeight(E: ExpLog, s: Score, m: real)
    requires E.Laws()
    ensures E.Rel(s, m) * E.exp(m) == E.Weight(s)
  {
    if s.Fin? {
      assert E.AddLaw(s.value - m, m);
      assert s.value - m + m == s.value;
    }
  }

  lemma ScaleTerm(r: real, v: real, e: real, w: real)
    requires r * e == w
    ensures (r * v) * e == w * v
  {
    assert (r * v) * e == (r * e) * v;
  }

  lemma {:induction false} RelSums(E: ExpLog, tile: seq<Key>, m: real, dv: nat)
    requires E.Laws() && Wide(tile, dv)
    ensures Means(E, Fin(m), RelSum(E, tile, m), SumWeights(E, tile))
    ensures forall d :: 0 <= d < dv ==> Means(E, Fin(m), RelValues(E, tile, m, dv, d), SumValues(E, tile, dv, d))
  {
    if tile != [] {
      var init, last := tile[..|tile| - 1], tile[|tile| - 1];
      RelSums(E, init, m, dv);
      RelWeight(E, last.score, m);
      forall d | 0 <= d < dv ensures Means(E, Fin(m), RelValues(E, tile, m, dv, d), SumValues(E, tile, dv, d)) {
        assert Means(E, Fin(m), RelValues(E, init, m, dv, d), SumValues(E, init, dv, d));
        ScaleTerm(E.Rel(last.score, m), last.value[d], E.exp(m), E.Weight(last.score));
      }
    }
  }

  /** Rescaling a quantity from the old maximum to m keeps its meaning. */
  lemma Rescaled(E: ExpLog, was: Score, m: real, x: real, plain: real)
    requires E.Laws() && Means(E, was, x, plain)
    ensures Means(E, Fin(m), x * E.Rel(was, m), plain)
  {
    RelWeight(E, was, m);
    ScaleTerm(E.Rel(was, m), x, E.exp(m), E.Weight(was));
    assert x * E.Rel(was, m) == E.Rel(was, m) * x;
  }

  lemma MeansAdd(E: ExpLog, m: Score, x: real, plain: real, y: real, plainY: real)
    requires Means(E, m, x, plain) && Means(E, m, y, plainY)
    ensures Means(E, m, x + y, plain + plainY)
  {
  }

  /** One component of a step: a running quantity x, a tile's contribution y, the new value z. */
  lemma StepMeans(E: ExpLog, was: Score, m: real, x: real, plain: real, y: real, plainTile: real, z: real,
                  plainAll: real)
    requires E.Laws() && Means(E, was, x, plain) && Means(E, Fin(m), y, plainTile)
    requires z == x * E.Rel(was, m) + y && plainAll == plain + plainTile
    ensures Means(E, Fin(m), z, plainAll)
  {
    Rescaled(E, was, m, x, plain);
    MeansAdd(E, Fin(m), x * E.Rel(was, m), plain, y, plainTile);
  }

  /** The invariant of every kernel's tile loop, for whatever finite maximum the step uses. */
  lemma {:induction false} StepRepresents(E: ExpLog, st: State, keys: seq<Key>, tile: seq<Key>, m: real)
    requires E.Laws() && Represents(E, st, keys) && Wide(tile, |st.acc|)
    ensures Represents(E, Step(E, st, tile, m), keys + tile)
  {
    hide ExpLog.Rel, ExpLog.Laws, Means, SumWeights, SumValues, RelSum, RelValues;
    var dv := |st.acc|;
    var next := Step(E, st, tile, m);
    SumsAppend(E, keys, tile, dv);
    RelSums(E, tile, m, dv);
    StepMeans(E, st.max, m, st.sum, SumWeights(E, keys), RelSum(E, tile, m), SumWeights(E, tile),
              next.sum, SumWeights(E, keys + tile));
    forall d | 0 <= d < dv ensures Means(E, Fin(m), next.acc[d], SumValues(E, keys + tile, dv, d)) {
      StepMeans(E, st.max, m, st.acc[d], SumValues(E, keys, dv, d), RelValues(E, tile, m, dv, d),
                SumValues(E, tile, dv, d), next.acc[d], SumValues(E, keys + tile, dv, d));
    }
  }

  /** acc / (sum + exp(sink - max)): the division every kernel ends with. In the empty case a sink
      divides by exp(+inf), which leaves zero. */
  function Finish(E: ExpLog, st: State, sink: Sink, d: nat): Element
    requires d < |st.acc|
  {
    match st.max
    case NegInf => if sink.NoSink? then NaN else Num(0.0)
    case Fin(m) =>
      var total := st.sum + (if sink.NoSink? then 0.0 else E.Rel(Fin(sink.logit), m));
      if total == 0.0 then NaN else Num(st.acc[d] / total)
  }

  lemma SameQuotient(a: real, s: real, e: real, num: real, den: real)
    requires e > 0.0 && a * e == num && s * e == den
    ensures s == 0.0 <==> den == 0.0
    ensures s != 0.0 ==> a / s == num / den
  {
    if s != 0.0 {
      assert num / den == (a / s) * (e / e);
    }
  }

  /** Whatever maximum was carried, the final division is plain attention over the keys seen. */
  lemma FinishIsAttention(E: ExpLog, st: State, keys: seq<Key>, sink: Sink, d: nat)
    requires E.Laws() && Represents(E, st, keys) && d < |st.acc|
    ensures Finish(E, st, sink, d) == Attention(E, keys, |st.acc|, d, sink)
  {
    hide SumWeights, SumValues, ExpLog.Rel;
    var plainSum := SumWeights(E, keys);
    assert Means(E, st.max, st.acc[d], SumValues(E, keys, |st.acc|, d));
    match st.max
    case NegInf =>
    case Fin(m) =>
      var extra := if sink.NoSink? then 0.0 else E.Rel(Fin(sink.logit), m);
      assert Means(E, st.max, extra, SinkWeight(E, sink)) by {
        if sink.WithSink? {
          RelWeight(E, Fin(sink.logit), m);
        }
      }
      MeansAdd(E, st.max, st.sum, plainSum, extra, SinkWeight(E, sink));
      SameQuotient(st.acc[d], st.sum + extra, E.exp(m), SumValues(E, keys, |st.acc|, d),
          plainSum + SinkWeight(E, sink));
  }
}
