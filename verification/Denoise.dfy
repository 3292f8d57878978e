/** The masked-canvas denoising loop: at every step the most confident masked positions are revealed,
    as many as the schedule says, and the last step reveals the rest. */
module Denoise {
  import opened Rounding

  const MASK_ID: int := 151666

  /** What the model returns for a canvas: per position, the top probability and the token it is for. */
  datatype Prediction = Prediction(conf: seq<real>, token: seq<int>)

  type Model = seq<int> -> Prediction

  /** Probabilities are not negative, and the mask token is never the answer. */
  ghost predicate SoundAt(model: Model, x: seq<int>) {
    var p := model(x);
    && |p.conf| == |x| == |p.token|
    && forall j :: 0 <= j < |x| ==> p.conf[j] >= 0.0 && p.token[j] != MASK_ID
  }

  ghost predicate Sound(model: Model) {
    forall x: seq<int> :: SoundAt(model, x)
  }

  function Masked(x: seq<int>): set<nat> {
    set j: nat | j < |x| && x[j] == MASK_ID
  }

  // ---- the schedule ----

  /** linspace(1, eps, steps + 1)[i] */
  function TimeStep(i: nat, steps: nat, eps: real): real
    requires steps > 0
  {
    1.0 + i as real * (eps - 1.0) / steps as real
  }

  /** Python's int(): towards zero. */
  function Trunc(r: real): int {
    if r >= 0.0 then r.Floor else -((-r).Floor)
  }

  /** How many of the masked positions are due between time t and time s. */
  function Share(masked: nat, s: real, t: real): int
    requires t > 0.0
  {
    Trunc(masked as real * (1.0 - s / t))
  }

  /** How many positions step i reveals. */
  function Reveal(i: nat, steps: nat, eps: real, masked: nat): int
    requires i < steps && eps >= 0.0
  {
    if i == steps - 1 then masked
    else
      TimePositive(i, steps, eps);
      Share(masked, TimeStep(i + 1, steps, eps), TimeStep(i, steps, eps))
  }

  lemma TimePositive(i: nat, steps: nat, eps: real)
    requires i < steps && eps >= 0.0
    ensures TimeStep(i, steps, eps) > 0.0 && TimeStep(i + 1, steps, eps) >= 0.0
  {
    Fraction(i, steps, eps);
    Fraction(i + 1, steps, eps);
  }

  lemma Fraction(i: nat, steps: nat, eps: real)
    requires i <= steps && steps > 0 && eps >= 0.0
    ensures TimeStep(i, steps, eps) >= 0.0
    ensures i < steps ==> TimeStep(i, steps, eps) > 0.0
  {
    var n := steps as real;
    var product := i as real * (eps - 1.0);
    Quotient(product, n);
    SignOf(1.0 + product / n, n, n + product);
    Product(i as real, eps);
  }

  lemma Product(i: real, eps: real)
    requires i >= 0.0 && eps >= 0.0
    ensures i * (eps - 1.0) >= -i
  {
    assert i * (eps - 1.0) == i * eps - i;
  }

  lemma Quotient(x: real, n: real)
    requires n > 0.0
    ensures (1.0 + x / n) * n == n + x
  {
    assert x / n * n == x;
  }

  lemma SignOf(x: real, n: real, xn: real)
    requires n > 0.0 && x * n == xn
    ensures xn >= 0.0 ==> x >= 0.0
    ensures xn > 0.0 ==> x > 0.0
  {
  }

  /** Time runs down from one. */
  lemma TimeFalls(i: nat, steps: nat, eps: real)
    requires i < steps && eps <= 1.0
    ensures TimeStep(i + 1, steps, eps) <= TimeStep(i, steps, eps)
  {
    var a, b := i as real * (eps - 1.0), (i + 1) as real * (eps - 1.0);
    assert b == a + (eps - 1.0);
    QuotientMono(b, a, steps as real, b / steps as real, a / steps as real);
  }

  lemma QuotientMono(b: real, a: real, n: real, x: real, y: real)
    requires n > 0.0 && b <= a && x * n == b && y * n == a
    ensures x <= y
  {
    SignOf(y - x, n, a - b);
  }

  /** The schedule asks for no more than is masked, and for no negative count when it ends at a time in
      [0, 1]. */
  lemma RevealBound(i: nat, steps: nat, eps: real, masked: nat)
    requires i < steps && eps >= 0.0
    ensures Reveal(i, steps, eps, masked) <= masked
    ensures eps <= 1.0 ==> 0 <= Reveal(i, steps, eps, masked)
  {
    hide TimeStep, Share;
    if i < steps - 1 {
      TimePositive(i, steps, eps);
      ShareBound(masked, TimeStep(i + 1, steps, eps), TimeStep(i, steps, eps));
      if eps <= 1.0 {
        TimeFalls(i, steps, eps);
      }
    }
  }

  lemma Ratio(s: real, t: real, q: real)
    requires t > 0.0 && s >= 0.0 && q == s / t
    ensures q >= 0.0
    ensures s <= t ==> q <= 1.0
  {
    assert q * t == s;
    SignOf(q, t, s);
    SignOf(1.0 - q, t, t - s);
  }

  lemma Part(m: real, q: real)
    requires m >= 0.0 && q >= 0.0
    ensures m * (1.0 - q) <= m
    ensures q <= 1.0 ==> m * (1.0 - q) >= 0.0
  {
    assert m * (1.0 - q) == m - m * q;
  }

  lemma TruncBetween(x: real, m: nat)
    requires x <= m as real
    ensures Trunc(x) <= m
    ensures x >= 0.0 ==> 0 <= Trunc(x)
  {
    if x >= 0.0 {
      assert x.Floor as real <= x;
    }
  }

  lemma ShareBound(masked: nat, s: real, t: real)
    requires t > 0.0 && s >= 0.0
    ensures Share(masked, s, t) <= masked
    ensures s <= t ==> 0 <= Share(masked, s, t)
  {
    hide Trunc;
    Ratio(s, t, s / t);
    Part(masked as real, s / t);
    TruncBetween(masked as real * (1.0 - s / t), masked);
  }

  // ---- top-k ----

  /** Index of the largest value outside `out`, the first of equals. */
  function ArgMax(conf: seq<real>, out: set<nat>, n: nat): (r: int)
    requires n <= |conf|
    ensures r == -1 <==> forall j: nat :: j < n ==> j in out
    ensures r != -1 ==> 0 <= r < n && r !in out && forall j: nat :: j < n && j !in out ==> conf[j] <= conf[r]
  {
    if n == 0 then -1
    else
      var r := ArgMax(conf, out, n - 1);
      if n - 1 in out then r
      else if r == -1 || conf[n - 1] > conf[r] then n - 1
      else r
  }

  /** The k most confident positions. */
  function TopK(conf: seq<real>, k: nat): (top: set<nat>)
    requires k <= |conf|
    ensures |top| == k
    ensures forall j :: j in top ==> j < |conf|
    ensures forall i, j: nat :: i in top && j < |conf| && j !in top ==> conf[j] <= conf[i]
  {
    if k == 0 then {}
    else
      var top := TopK(conf, k - 1);
      var r := ArgMax(conf, top, |conf|);
      FreeIndex(top, |conf|);
      top + {r as nat}
  }

  lemma FreeIndex(s: set<nat>, n: nat)
    requires |s| < n
    ensures exists j: nat :: j < n && j !in s
  {
    if forall j: nat :: j < n ==> j in s {
      Below(s, n);
    }
  }

  lemma {:induction false} Below(s: set<nat>, n: nat)
    requires forall j: nat :: j < n ==> j in s
    ensures |s| >= n
  {
    if n > 0 {
      Below(s - {n - 1}, n - 1);
    }
  }

  // ---- one step ----

  /** conf.masked_fill(~mask, -1) */
  function MaskedConf(x: seq<int>, conf: seq<real>): (c: seq<real>)
    requires |conf| == |x|
    ensures |c| == |x| && forall j :: 0 <= j < |x| ==> c[j] == if x[j] == MASK_ID then conf[j] else -1.0
  {
    seq(|x|, j requires 0 <= j < |x| => if x[j] == MASK_ID then conf[j] else -1.0)
  }

  lemma MaskedInside(x: seq<int>)
    ensures |Masked(x)| <= |x|
  {
    assert Masked(x) <= Indices(|x|);
    Subset(Masked(x), Indices(|x|));
  }

  function Indices(n: nat): (s: set<nat>)
    ensures |s| == n && forall j: nat :: j in s <==> j < n
  {
    if n == 0 then {} else Indices(n - 1) + {n - 1}
  }

  lemma {:induction false} Subset(a: set<nat>, b: set<nat>)
    requires a <= b
    ensures |a| <= |b|
  {
    if a != {} {
      var e :| e in a;
      Subset(a - {e}, b - {e});
    }
  }

  /** The canvas with the positions of `idx` taken from the prediction. */
  function Put(x: seq<int>, token: seq<int>, idx: set<nat>): (r: seq<int>)
    requires |token| == |x|
    ensures |r| == |x| && forall j: nat :: j < |x| ==> r[j] == if j in idx then token[j] else x[j]
  {
    var r := seq(|x|, j requires 0 <= j < |x| => if j in idx then token[j] else x[j]);
    assert forall j: nat :: j < |x| ==> r[j] == if j in idx then token[j] else x[j];
    r
  }

  /** One denoising step that reveals n positions. */
  function Advance(model: Model, x: seq<int>, n: nat): (r: seq<int>)
    requires Sound(model) && n <= |Masked(x)|
    ensures |r| == |x|
  {
    MaskedInside(x);
    assert SoundAt(model, x);
    Put(x, model(x).token, TopK(MaskedConf(x, model(x).conf), n))
  }

  /** Top-k picks masked positions only. */
  lemma {:induction false} PicksMasked(x: seq<int>, conf: seq<real>, n: nat)
    requires |conf| == |x| && n <= |Masked(x)| && n <= |x|
    requires forall j :: 0 <= j < |x| ==> conf[j] >= 0.0
    ensures TopK(MaskedConf(x, conf), n) <= Masked(x)
  {
    var c := MaskedConf(x, conf);
    var top := TopK(c, n);
    forall u | u in top ensures u in Masked(x) {
      if u !in Masked(x) {
        forall j | j in Masked(x) ensures j in top {
          assert c[j] >= 0.0 && c[u] == -1.0;
        }
        Subset(Masked(x), top - {u});
        assert false;
      }
    }
  }

  lemma Difference(a: set<nat>, b: set<nat>)
    requires b <= a
    ensures |a - b| == |a| - |b|
  {
    assert a == (a - b) + b;
  }

  /** Exactly n positions were revealed: all of them were masked and none is any more; no other position
      changed. */
  ghost predicate Revealed(x: seq<int>, y: seq<int>, n: int) {
    && |x| == |y|
    && (forall j: nat :: j < |x| && x[j] != MASK_ID ==> y[j] == x[j])
    && Masked(y) <= Masked(x) && |Masked(x) - Masked(y)| == n && |Masked(y)| == |Masked(x)| - n
  }

  /** What is no longer masked holds the model's token for it, and nothing that still is was more confident. */
  ghost predicate BestFirst(model: Model, x: seq<int>, y: seq<int>)
    requires Sound(model) && |y| == |x|
  {
    assert SoundAt(model, x);
    && (forall j: nat :: j < |x| && x[j] == MASK_ID && y[j] != MASK_ID ==> y[j] == model(x).token[j])
    && forall i: nat, j: nat :: i < |x| && j < |x| && x[i] == MASK_ID && y[i] != MASK_ID && y[j] == MASK_ID ==>
         model(x).conf[j] <= model(x).conf[i]
  }

  lemma {:induction false} AdvanceReveals(model: Model, x: seq<int>, n: nat)
    requires Sound(model) && n <= |Masked(x)|
    ensures Revealed(x, Advance(model, x, n), n)
    ensures BestFirst(model, x, Advance(model, x, n))
  {
    MaskedInside(x);
    assert SoundAt(model, x);
    var p := model(x);
    var top := TopK(MaskedConf(x, p.conf), n);
    var y := Advance(model, x, n);
    PicksMasked(x, p.conf, n);
    assert Masked(y) == Masked(x) - top;
    assert Masked(x) - Masked(y) == top;
    Difference(Masked(x), top);
    BestPut(model, x, top);
  }

  lemma {:induction false} BestPut(model: Model, x: seq<int>, top: set<nat>)
    requires Sound(model) && top <= Masked(x) && |model(x).conf| == |model(x).token| == |x|
    requires forall i, j: nat :: i in top && j < |x| && j !in top ==>
      MaskedConf(x, model(x).conf)[j] <= MaskedConf(x, model(x).conf)[i]
    ensures BestFirst(model, x, Put(x, model(x).token, top))
  {
    assert SoundAt(model, x);
    var c, y := MaskedConf(x, model(x).conf), Put(x, model(x).token, top);
    forall i: nat, j: nat | i < |x| && j < |x| && x[i] == MASK_ID && y[i] != MASK_ID && y[j] == MASK_ID
      ensures model(x).conf[j] <= model(x).conf[i]
    {
      assert i in top && j !in top && c[j] <= c[i];
    }
  }

  // ---- the loops ----

  function NonNegative(n: int): nat {
    if n >= 0 then n else 0
  }

  /** How many positions step i reveals on canvas x, once clipped at zero. */
  function Count(x: seq<int>, i: nat, steps: nat, eps: real): (n: nat)
    requires i < steps && eps >= 0.0
    ensures n <= |Masked(x)|
    ensures i == steps - 1 ==> n == |Masked(x)|
  {
    RevealBound(i, steps, eps, |Masked(x)|);
    NonNegative(Reveal(i, steps, eps, |Masked(x)|))
  }

  /** What step i makes of canvas x: nothing once no mask is left. */
  function Next(model: Model, x: seq<int>, i: nat, steps: nat, eps: real): (r: seq<int>)
    requires Sound(model) && i < steps && eps >= 0.0
    ensures |r| == |x|
  {
    if Masked(x) == {} then x else Advance(model, x, Count(x, i, steps, eps))
  }

  /** A step reveals what the schedule says, from the masked positions only; the last step reveals all. */
  lemma {:induction false} NextReveals(model: Model, x: seq<int>, i: nat, steps: nat, eps: real)
    requires Sound(model) && i < steps && eps >= 0.0
    ensures Revealed(x, Next(model, x, i, steps, eps), Count(x, i, steps, eps))
    ensures BestFirst(model, x, Next(model, x, i, steps, eps))
    ensures i == steps - 1 ==> Masked(Next(model, x, i, steps, eps)) == {}
  {
    hide Reveal, Advance, Sound;
    if Masked(x) == {} {
      assert Masked(x) - Masked(x) == {};
      NothingRevealed(model, x);
    } else {
      AdvanceReveals(model, x, Count(x, i, steps, eps));
    }
  }

  lemma NothingRevealed(model: Model, x: seq<int>)
    requires Sound(model)
    ensures BestFirst(model, x, x)
  {
    assert SoundAt(model, x);
  }

  // ---- a run, by what each step does ----

  /** How many of the masked positions are left after step i: none after the last, and before that in
      proportion to the time left, which runs in equal steps from 1 down to eps, rounded up. */
  predicate Scheduled(masked: nat, left: nat, i: nat, steps: nat, eps: real)
    requires i < steps
  {
    if i == steps - 1 then left == 0
    else
      var t := 1.0 + i as real * (eps - 1.0) / steps as real;
      var s := 1.0 + (i + 1) as real * (eps - 1.0) / steps as real;
      masked as real * s <= left as real * t < masked as real * s + t
  }

  ghost predicate IsStep(model: Model, x: seq<int>, y: seq<int>, i: nat, steps: nat, eps: real)
    requires Sound(model) && i < steps && |y| == |x|
  {
    && (forall j: nat :: j < |x| && x[j] != MASK_ID ==> y[j] == x[j])
    && BestFirst(model, x, y) && Scheduled(|Masked(x)|, |Masked(y)|, i, steps, eps)
  }

  /** Every canvas of a run comes from the one before by its step. */
  ghost predicate IsRun(model: Model, run: seq<seq<int>>, x: seq<int>, steps: nat, eps: real)
    requires Sound(model)
  {
    && |run| == steps + 1 && run[0] == x
    && forall i: nat :: i < steps ==> |run[i + 1]| == |run[i]| && IsStep(model, run[i], run[i + 1], i, steps, eps)
  }

  lemma FloorBetween(r: real)
    ensures r.Floor as real <= r < r.Floor as real + 1.0
  {
  }

  /** Times t, a real stays between the same integers. */
  lemma BetweenTimes(f: real, x: real, t: real)
    requires t > 0.0 && f <= x < f + 1.0
    ensures Times(f, t) <= Times(x, t) < Times(f, t) + t
  {
    hide Times;
    var d := x - f;
    TimesMinus(t, x, f);
    TimesSign(d, t);
    TimesMinus(t, 1.0, d);
    TimesSign(1.0 - d, t);
    TimesUnits(t);
  }

  lemma LeftOver(masked: real, q: real, s: real, t: real, f: real)
    requires t > 0.0 && Times(q, t) == s && f <= Times(masked, 1.0 - q) < f + 1.0
    ensures Times(masked, s) <= Times(masked - f, t) < Times(masked, s) + t
  {
    hide Times;
    BetweenTimes(f, Times(masked, 1.0 - q), t);
    TimesMinus(masked, 1.0, q);
    TimesUnits(masked);
    TimesMinus(t, masked, Times(masked, q));
    Associates(masked, q, t);
    TimesMinus(t, masked, f);
  }

  /** What the share leaves is in proportion to the time left, rounded up. */
  lemma {:induction false} ShareLeaves(masked: nat, s: real, t: real)
    requires t > 0.0 && 0.0 <= s <= t
    ensures 0 <= Share(masked, s, t) <= masked
    ensures Times(masked as real, s) <= Times((masked - Share(masked, s, t)) as real, t) < Times(masked as real, s) + t
  {
    ShareBound(masked, s, t);
    Ratio(s, t, s / t);
    Part(masked as real, s / t);
    var x := masked as real * (1.0 - s / t);
    assert Share(masked, s, t) == x.Floor;
    FloorBetween(x);
    ByQuotient(s, t);
    LeftOver(masked as real, s / t, s, t, x.Floor as real);
  }

  lemma ByQuotient(s: real, t: real)
    requires t > 0.0
    ensures Times(s / t, t) == s
  {
  }

  lemma {:induction false} CountLeaves(x: seq<int>, i: nat, steps: nat, eps: real)
    requires i < steps && 0.0 <= eps <= 1.0
    ensures Scheduled(|Masked(x)|, |Masked(x)| - Count(x, i, steps, eps), i, steps, eps)
  {
    hide Share, Masked, Trunc;
    if i < steps - 1 {
      TimePositive(i, steps, eps);
      TimeFalls(i, steps, eps);
      ShareLeaves(|Masked(x)|, TimeStep(i + 1, steps, eps), TimeStep(i, steps, eps));
    }
  }

  /** The canvas before step i. */
  function Canvas(model: Model, x: seq<int>, i: nat, steps: nat, eps: real): (r: seq<int>)
    requires Sound(model) && i <= steps && eps >= 0.0
    ensures |r| == |x|
  {
    if i == 0 then x else Next(model, Canvas(model, x, i - 1, steps, eps), i - 1, steps, eps)
  }

  /** What was not masked at the start is the same at the end. */
  ghost predicate Kept(x: seq<int>, y: seq<int>) {
    && |x| == |y| && Masked(y) <= Masked(x)
    && forall j: nat :: j < |x| && x[j] != MASK_ID ==> y[j] == x[j]
  }

  lemma KeptSelf(x: seq<int>)
    ensures Kept(x, x)
  {
  }

  lemma KeptStep(x: seq<int>, y: seq<int>, z: seq<int>, n: int)
    requires Kept(x, y) && Revealed(y, z, n)
    ensures Kept(x, z)
  {
    forall j: nat | j < |x| && x[j] != MASK_ID ensures z[j] == x[j] {
      assert j !in Masked(y);
    }
  }

  /** Every step reveals as many positions as the schedule says and touches nothing else; what was not
      masked at the start never changes; and after the last step nothing is masked. */
  lemma {:induction false} CanvasKeeps(model: Model, x: seq<int>, i: nat, steps: nat, eps: real)
    requires Sound(model) && i <= steps && eps >= 0.0
    ensures Kept(x, Canvas(model, x, i, steps, eps))
    ensures i < steps ==> Revealed(Canvas(model, x, i, steps, eps), Canvas(model, x, i + 1, steps, eps),
                                   Count(Canvas(model, x, i, steps, eps), i, steps, eps))
    ensures i < steps ==> BestFirst(model, Canvas(model, x, i, steps, eps), Canvas(model, x, i + 1, steps, eps))
    ensures i == steps && steps > 0 ==> Masked(Canvas(model, x, i, steps, eps)) == {}
  {
    hide Sound, Next, Count, Revealed, Masked, Kept, BestFirst;
    if i == 0 {
      KeptSelf(x);
    } else {
      CanvasKeeps(model, x, i - 1, steps, eps);
      var before := Canvas(model, x, i - 1, steps, eps);
      NextReveals(model, before, i - 1, steps, eps);
      KeptStep(x, before, Canvas(model, x, i, steps, eps), Count(before, i - 1, steps, eps));
    }
    if i < steps {
      NextReveals(model, Canvas(model, x, i, steps, eps), i, steps, eps);
    }
  }

  /** The canvases are a run: who is revealed at each step, with what token, and how many. */
  lemma {:induction false} CanvasIsRun(model: Model, x: seq<int>, steps: nat, eps: real)
    requires Sound(model) && 0.0 <= eps <= 1.0
    ensures exists run :: IsRun(model, run, x, steps, eps) && run[steps] == Canvas(model, x, steps, steps, eps)
  {
    hide Sound, Next, Count, Canvas, BestFirst, Scheduled;
    var run := seq(steps + 1, i requires 0 <= i <= steps => Canvas(model, x, i, steps, eps));
    forall i: nat | i < steps ensures IsStep(model, run[i], run[i + 1], i, steps, eps) {
      CanvasKeeps(model, x, i, steps, eps);
      CountLeaves(run[i], i, steps, eps);
    }
    assert run[0] == x by {
      CanvasStarts(model, x, steps, eps);
    }
    assert IsRun(model, run, x, steps, eps);
  }

  lemma CanvasStarts(model: Model, x: seq<int>, steps: nat, eps: real)
    requires Sound(model) && eps >= 0.0
    ensures Canvas(model, x, 0, steps, eps) == x
  {
  }

  lemma {:induction false} CanvasDone(model: Model, x: seq<int>, i: nat, k: nat, steps: nat, eps: real)
    requires Sound(model) && i <= k <= steps && eps >= 0.0
    requires Masked(Canvas(model, x, i, steps, eps)) == {}
    ensures Canvas(model, x, k, steps, eps) == Canvas(model, x, i, steps, eps)
    decreases k
  {
    hide Sound, Count, Advance, Masked;
    if i < k {
      CanvasDone(model, x, i, k - 1, steps, eps);
    }
  }

  /** The prompt followed by masks. */
  function Fresh(ids: seq<int>, maxNew: nat): (x: seq<int>)
    ensures |x| == |ids| + maxNew && x[..|ids|] == ids
    ensures forall j :: |ids| <= j < |x| ==> x[j] == MASK_ID
  {
    ids + seq(maxNew, _ => MASK_ID)
  }

  /** x[0, idx] = x0[idx] */
  method Assign(x: array<int>, token: seq<int>, idx: set<nat>)
    requires |token| == x.Length
    modifies x
    ensures x[..] == Put(old(x[..]), token, idx)
  {
    for j := 0 to x.Length
      invariant forall k: nat :: k < j ==> x[k] == if k in idx then token[k] else old(x[k])
      invariant forall k :: j <= k < x.Length ==> x[k] == old(x[k])
    {
      if j in idx {
        x[j] := token[j];
      }
    }
  }

  /** Reveal n positions of the canvas in place. */
  method Unmask(model: Model, x: array<int>, n: nat)
    requires Sound(model) && n <= |Masked(x[..])|
    modifies x
    ensures x[..] == Advance(model, old(x[..]), n)
  {
    MaskedInside(x[..]);
    assert SoundAt(model, x[..]);
    var p := model(x[..]);
    Assign(x, p.token, TopK(MaskedConf(x[..], p.conf), n));
  }

  /** The loop of `run_error_curve`. The quantised forward pass it also makes at every step is on the
      same canvas and has no say in the trajectory. */
  method RunErrorCurve(model: Model, ids: seq<int>, maxNew: nat, steps: nat, eps: real) returns (x: array<int>)
    requires Sound(model) && eps >= 0.0
    ensures x[..] == Canvas(model, Fresh(ids, maxNew), steps, steps, eps)
    ensures |ids| <= x.Length && (MASK_ID !in ids ==> x[..|ids|] == ids)
    ensures steps > 0 ==> Masked(x[..]) == {}
    ensures eps <= 1.0 ==> exists run :: IsRun(model, run, Fresh(ids, maxNew), steps, eps) && x[..] == run[steps]
  {
    hide Sound, Advance, Reveal, Masked, IsRun;
    if eps <= 1.0 {
      CanvasIsRun(model, Fresh(ids, maxNew), steps, eps);
    }
    ghost var start := Fresh(ids, maxNew);
    x := new int[|ids| + maxNew](j requires 0 <= j < |ids| + maxNew => Fresh(ids, maxNew)[j]);
    assert x[..] == start;
    var i := 0;
    while i < steps
      invariant i <= steps && x.Length == |start| && fresh(x)
      invariant x[..] == Canvas(model, start, i, steps, eps)
    {
      var numMask := |Masked(x[..])|;
      if numMask == 0 {
        CanvasDone(model, start, i, steps, steps, eps);
        break;
      }
      var nTr := NonNegative(Reveal(i, steps, eps, numMask));
      assert nTr == Count(x[..], i, steps, eps);
      if nTr > 0 {
        Unmask(model, x, nTr);
      } else {
        AdvanceNothing(model, x[..]);
      }
      i := i + 1;
    }
    CanvasKeeps(model, start, steps, steps, eps);
    PromptKept(ids, maxNew, x[..]);
  }

  /** The loop of `run_profile`: no clipping of the count, at least one position when it is positive.
      The trajectory is the same. */
  method RunProfile(model: Model, ids: seq<int>, maxNew: nat, steps: nat, eps: real) returns (x: array<int>)
    requires Sound(model) && eps >= 0.0
    ensures x[..] == Canvas(model, Fresh(ids, maxNew), steps, steps, eps)
    ensures eps <= 1.0 ==> exists run :: IsRun(model, run, Fresh(ids, maxNew), steps, eps) && x[..] == run[steps]
  {
    hide Sound, Advance, Reveal, Masked, IsRun;
    if eps <= 1.0 {
      CanvasIsRun(model, Fresh(ids, maxNew), steps, eps);
    }
    ghost var start := Fresh(ids, maxNew);
    x := new int[|ids| + maxNew](j requires 0 <= j < |ids| + maxNew => Fresh(ids, maxNew)[j]);
    assert x[..] == start;
    var i := 0;
    while i < steps
      invariant i <= steps && x.Length == |start| && fresh(x)
      invariant x[..] == Canvas(model, start, i, steps, eps)
    {
      var numMask := |Masked(x[..])|;
      if numMask == 0 {
        CanvasDone(model, start, i, steps, steps, eps);
        break;
      }
      var nTr := Reveal(i, steps, eps, numMask);
      assert NonNegative(nTr) == Count(x[..], i, steps, eps);
      if nTr > 0 {
        Unmask(model, x, if nTr >= 1 then nTr else 1);
      } else {
        AdvanceNothing(model, x[..]);
      }
      i := i + 1;
    }
  }

  lemma AdvanceNothing(model: Model, x: seq<int>)
    requires Sound(model)
    ensures Advance(model, x, 0) == x
  {
    assert SoundAt(model, x);
  }

  lemma PromptKept(ids: seq<int>, maxNew: nat, y: seq<int>)
    requires |y| == |ids| + maxNew
    requires forall j: nat :: j < |y| && Fresh(ids, maxNew)[j] != MASK_ID ==> y[j] == Fresh(ids, maxNew)[j]
    ensures MASK_ID !in ids ==> y[..|ids|] == ids
  {
    if MASK_ID !in ids {
      forall j: nat | j < |ids| ensures y[j] == ids[j] {
        assert Fresh(ids, maxNew)[j] == ids[j] && ids[j] in ids;
      }
    }
  }
}
