/** Where forward's rows are not the stock path's: plain softmax attention tells the causal mask from none,
    and the steps on which it shows. */
module Drafting {
  import opened IndexArith
  import opened PagedCache
  import opened Softmax
  import opened Vectors
  import opened Wrappers
  import opened Fallback

  // ---- softmax attention tells the masks apart ----

  /** The keys of one query: scores are scaled products, values dv wide. */
  function KeysOf(scale: real, dv: nat, q: Row, kvs: seq<KV>): (keys: seq<Key>)
    ensures |keys| == |kvs| && Wide(keys, dv)
  {
    seq(|kvs|, i requires 0 <= i < |kvs| =>
      Key(Fin(ScaledDot(q, kvs[i].k, scale)), if |kvs[i].v| == dv then kvs[i].v else Zeros(dv)))
  }

  /** Plain softmax attention. */
  function SoftmaxAttention(E: ExpLog, scale: real, dv: nat): Kernel {
    (q: Row, kvs: seq<KV>) =>
      seq(dv, d requires 0 <= d < dv =>
        var x := Attention(E, KeysOf(scale, dv, q, kvs), dv, d, NoSink);
        if x.Num? then x.r else 0.0)
  }

  /** n tokens that score nothing; token `x` alone has a value. */
  function Lit(n: nat, x: int, dv: nat): (r: seq<KV>)
    ensures |r| == n && forall i :: 0 <= i < n ==> r[i] == KV([], seq(dv, _ => if i == x then 1.0 else 0.0))
  {
    seq(n, i => KV([], seq(dv, _ => if i == x then 1.0 else 0.0)))
  }

  ghost predicate LitKeys(keys: seq<Key>, x: int, dv: nat) {
    && Wide(keys, dv) && dv > 0
    && forall i :: 0 <= i < |keys| ==> keys[i].score == Fin(0.0) && keys[i].value[0] == if i == x then 1.0 else 0.0
  }

  lemma {:induction false} LitSums(E: ExpLog, keys: seq<Key>, x: nat, dv: nat)
    requires E.Laws() && LitKeys(keys, x, dv)
    ensures SumWeights(E, keys) == |keys| as real && SumValues(E, keys, dv, 0) == if x < |keys| then 1.0 else 0.0
  {
    if keys != [] {
      hide ExpLog.Laws;
      LitSums(E, keys[..|keys| - 1], x, dv);
      ExpZero(E, 0.0);
      assert E.Weight(keys[|keys| - 1].score) == 1.0;
    }
  }

  lemma ExpZero(E: ExpLog, zero: real)
    requires E.Laws() && zero == 0.0
    ensures E.exp(zero) == 1.0
  {
    assert E.AddLaw(zero, zero);
    var sum, e := zero + zero, E.exp(zero);
    assert E.exp(sum) == e * e;
    assert sum == zero;
    assert E.exp(sum) == e;
    OneIsIdempotent(e);
  }

  lemma OneIsIdempotent(e: real)
    requires e > 0.0 && e * e == e
    ensures e == 1.0
  {
    assert e * (e - 1.0) == 0.0;
  }

  /** Attention to n tokens of which one is lit, and to tokens none of which is. */
  lemma LitAttention(E: ExpLog, scale: real, dv: nat, q: Row, n: nat, x: nat)
    requires E.Laws() && dv > 0 && n > 0
    ensures var row := SoftmaxAttention(E, scale, dv)(q, Lit(n, x, dv));
      |row| == dv && row[0] == if x < n then 1.0 / n as real else 0.0
  {
    var keys := KeysOf(scale, dv, q, Lit(n, x, dv));
    forall i | 0 <= i < n ensures keys[i].score == Fin(0.0) {
      var k := Lit(n, x, dv)[i].k;
      assert k == [] && Dot(q, k) == 0.0 && ScaledDot(q, k, scale) == 0.0;
    }
    LitSums(E, keys, x, dv);
  }

  /** Cutting a lit list. */
  lemma LitCut(n: nat, x: int, dv: nat, m: nat)
    requires m <= n
    ensures Lit(n, x, dv)[..m] == Lit(m, x, dv)
  {
  }

  ghost predicate SoftmaxAgrees(e: Env, impl: Impl, w: Work, inRange: (seq<Row>, seq<KV>) -> bool, tokens: seq<KV>,
                                before: seq<KV>)
    requires w.Valid() && w.tokens.Some?
  {
    && |tokens| == |w.q| && |before| == w.blocks * w.m.batch.bs ==>
      var v := WithTokens(w, tokens);
      TokensApart(e, impl, w, tokens);
      RowsAgree(e, impl, v, inRange, v.Written(before))
  }

  /** Plain softmax attention alone sees the difference: over every cache and all new tokens forward's rows
      are the stock path's under the very condition of `ForwardIsStock`. */
  lemma {:induction false} SoftmaxIsStock(E: ExpLog, scale: real, dv: nat, e: Env, impl: Impl, w: Work,
                                          inRange: (seq<Row>, seq<KV>) -> bool)
    requires E.Laws() && dv > 0 && w.Valid() && w.tokens.Some? && w.attn == SoftmaxAttention(E, scale, dv)
    ensures (forall tokens, before :: SoftmaxAgrees(e, impl, w, inRange, tokens, before))
            <==> !WrongMask(e, impl, w) || w.m.batch.Count() == 0
  {
    hide Work.Valid, WrongMask, RowAgrees, Work.Written;
    if !WrongMask(e, impl, w) || w.m.batch.Count() == 0 {
      forall tokens, before ensures SoftmaxAgrees(e, impl, w, inRange, tokens, before) {
        if |tokens| == |w.q| && |before| == w.blocks * w.m.batch.bs {
          var v := WithTokens(w, tokens);
          TokensApart(e, impl, w, tokens);
          forall i: nat, t: nat | InRequest(v, i, t) ensures RowAgrees(e, impl, v, inRange, v.Written(before), i, t) {
            AgreesIf(e, impl, v, inRange, v.Written(before), i, t);
          }
        }
      }
    } else {
      RequestEnds(w);
      FirstRowEarly(e, impl, w);
      var tokens, before := Lit(|w.q|, w.m.batch.cu[1] - 1, dv), Lit(w.blocks * w.m.batch.bs, -1, dv);
      var v := WithTokens(w, tokens);
      TokensApart(e, impl, w, tokens);
      FirstRowLit(v, before, dv);
      FirstRowDiffers(E, scale, dv, e, impl, v, inRange, v.Written(before));
      assert !SoftmaxAgrees(e, impl, w, inRange, tokens, before);
    }
  }

  /** Request 0 with its last new token lit and nothing else. */
  lemma {:induction false} FirstRowLit(w: Work, before: seq<KV>, dv: nat)
    requires w.Valid() && w.tokens.Some? && w.m.batch.Count() > 0 && InRequest(w, 0, 0)
    requires w.tokens.value == Lit(|w.q|, w.m.batch.cu[1] - 1, dv)
    requires before == Lit(w.blocks * w.m.batch.bs, -1, dv)
    ensures var n := w.m.batch.lens[0]; n > 0 && Tokens(w.Written(before), w.m.batch, w.blocks, 0) == Lit(n, n - 1, dv)
  {
    var b := w.m.batch;
    var was := Tokens(before, b, w.blocks, 0);
    RequestBounds(w, 0);
    CacheRefinesSequences(before, w.tokens.value, b, w.blocks, 0);
    forall p | 0 <= p < Ctx(b, 0) ensures was[p] == Lit(1, -1, dv)[0] {
      TokenAt(before, b, w.blocks, 0, p);
    }
    assert was[..Ctx(b, 0)] + w.tokens.value[b.cu[0]..b.cu[1]] == Lit(b.lens[0], b.lens[0] - 1, dv);
  }

  lemma {:induction false} FirstRowDiffers(E: ExpLog, scale: real, dv: nat, e: Env, impl: Impl, w: Work,
                                           inRange: (seq<Row>, seq<KV>) -> bool, cache: seq<KV>)
    requires E.Laws() && dv > 0 && w.Valid() && w.attn == SoftmaxAttention(E, scale, dv)
    requires |cache| == w.blocks * w.m.batch.bs && w.m.batch.Count() > 0 && InRequest(w, 0, 0) && w.m.batch.cu[1] > 1
    requires WrongMask(e, impl, w)
    requires var n := w.m.batch.lens[0]; n > 0 && Tokens(cache, w.m.batch, w.blocks, 0) == Lit(n, n - 1, dv)
    ensures !RowAgrees(e, impl, w, inRange, cache, 0, 0)
  {
    hide Work.Valid, Work.Stock, Work.Masked, WrongMask, Served, SoftmaxAttention;
    WrongMaskServes(e, impl, w, inRange, cache);
    ServedRows(e, impl, w, inRange, cache, 0, 0);
    RowLit(E, scale, dv, w, cache);
  }

  /** The first row sees the lit token unless masked. */
  lemma {:induction false} RowLit(E: ExpLog, scale: real, dv: nat, w: Work, cache: seq<KV>)
    requires E.Laws() && dv > 0 && w.Valid() && w.attn == SoftmaxAttention(E, scale, dv)
    requires |cache| == w.blocks * w.m.batch.bs && w.m.batch.Count() > 0 && InRequest(w, 0, 0) && w.m.batch.cu[1] > 1
    requires var n := w.m.batch.lens[0]; n > 0 && Tokens(cache, w.m.batch, w.blocks, 0) == Lit(n, n - 1, dv)
    ensures var n := w.m.batch.lens[0];
      && |w.Masked(cache, 0, 0, true)| == |w.Masked(cache, 0, 0, false)| == dv
      && w.Masked(cache, 0, 0, true)[0] == 0.0 && w.Masked(cache, 0, 0, false)[0] == 1.0 / n as real
  {
    hide SoftmaxAttention;
    var n := w.m.batch.lens[0];
    RequestBounds(w, 0);
    var m := n - w.m.batch.cu[1] + 1;
    LitCut(n, n - 1, dv, m);
    LitCut(n, n - 1, dv, n);
    LitAttention(E, scale, dv, w.q[0], m, n - 1);
    LitAttention(E, scale, dv, w.q[0], n, n - 1);
  }

  // ---- steps that go wrong ----

  /** One request of one token and two new ones, on a layer whose verify leg is on. */
  function Draft(attn: Kernel, tokens: Option<seq<KV>>, causal: bool): Work {
    Work(attn, _ => [], [[], []], tokens,
         Meta(Batch([0, 2], [3], [[0]], [1, 2], 16), 2, false, Flag(causal), false, NoWindow, false, None), 1)
  }

  const DRAFT_IMPL := Impl(64, true, false, 2, Dispatch.HALF)

  const DRAFT_ENV := Env(false, true, false, {Dispatch.XqaVerify}, false, 0, true, true, true, false, true, false)

  lemma {:induction false} DraftValid(attn: Kernel, tokens: Option<seq<KV>>, causal: bool)
    requires tokens.Some? ==> |tokens.value| == 2
    ensures var w := Draft(attn, tokens, causal);
      w.Valid() && InRequest(w, 0, 0) && Reached(DRAFT_ENV, DRAFT_IMPL, w)
  {
    var w := Draft(attn, tokens, causal);
    DraftBatch(w.m.batch);
    assert w.m.NumActual() == 2;
  }

  lemma DraftBatch(b: Batch)
    requires b == Batch([0, 2], [3], [[0]], [1, 2], 16)
    ensures b.Valid(1) && b.RequestFits(0, 1) && Consistent(b, 1)
  {
    assert CeilDiv(3, 16) == 1;
    assert b.RequestFits(0, 1) && b.Valid(1);
    forall i, j | 0 <= i < b.Count() && 0 <= j && b.cu[i] + j < b.cu[i + 1] ensures Mapped(b, 1, i, j) {
      assert j == 0 || j == 1;
    }
    forall i, p, i', p' |
        0 <= i < b.Count() && 0 <= i' < b.Count() && 0 <= p < b.lens[i] && 0 <= p' < b.lens[i'] && Ctx(b, i') <= p'
      ensures SlotOf(b, 1, i, p) == SlotOf(b, 1, i', p') ==> i == i' && p == p'
    {
      assert SlotOf(b, 1, 0, p) == p && SlotOf(b, 1, 0, p') == p';
    }
  }

  /** A drafted block to be seen whole by both its queries: only the second new token has a value, which the
      first query's row misses in forward and not on the stock path. */
  lemma {:induction false} DraftGoesWrong(E: ExpLog, scale: real, inRange: (seq<Row>, seq<KV>) -> bool)
    requires E.Laws()
    ensures var w := Draft(SoftmaxAttention(E, scale, 1), Some(Lit(2, 1, 1)), false);
      && w.Valid() && InRequest(w, 0, 0) && w.blocks * w.m.batch.bs == 16
      && var cache := w.Written(Lit(16, -1, 1));
         && Served(DRAFT_ENV, DRAFT_IMPL, w, inRange, cache)
         && ForwardRow(DRAFT_ENV, DRAFT_IMPL, w, inRange, cache, 0, 0) == [0.0]
         && w.Stock(DRAFT_IMPL, cache, 0, 0) == [1.0 / 3.0]
  {
    hide SoftmaxAttention, Work.Masked, Work.Written;
    DraftValid(SoftmaxAttention(E, scale, 1), Some(Lit(2, 1, 1)), false);
    var w := Draft(SoftmaxAttention(E, scale, 1), Some(Lit(2, 1, 1)), false);
    var cache := w.Written(Lit(16, -1, 1));
    FirstRowLit(w, Lit(16, -1, 1), 1);
    RowLit(E, scale, 1, w, cache);
    ServedRows(DRAFT_ENV, DRAFT_IMPL, w, inRange, cache, 0, 0);
  }

  /** A causal step of a layer that has no keys and values of its own: forward raises. */
  lemma {:induction false} KeylessRaises(attn: Kernel)
    ensures var w := Draft(attn, None, true); w.Valid() && Reached(DRAFT_ENV, DRAFT_IMPL, w) && w.tokens.None?
  {
    DraftValid(attn, None, true);
  }
}
