/** What plain attention over a launch's keys is, told by other launches: where a token is kept does not
    matter, later tokens do not, decoding is extending by one token, and the rows of a batch do not meet. */
module AttentionLaws {
  import opened IndexArith
  import opened Softmax
  import opened Vectors
  import D = SplitDecode
  import X = ExtendAttention
  import HeadMap

  /** The two launches are for the same layer. */
  predicate SameLayer(c: X.Launch, c': X.Launch) {
    && c.heads == c'.heads && c.kvHeads == c'.kvHeads && c.group == c'.group && c.dv == c'.dv
    && c.window == c'.window && c.causal == c'.causal
    && c.smScale == c'.smScale && c.logitCap == c'.logitCap && c.sinks == c'.sinks
  }

  /** Tokens of request i: the cached ones, then the new ones. */
  function Tokens(c: X.Launch, i: nat): nat
    requires c.Valid() && i < c.Batch()
  {
    assert c.SeqValid(i);
    (c.kvIndptr[i + 1] - c.kvIndptr[i]) + (c.qoIndptr[i + 1] - c.qoIndptr[i])
  }

  /** Key and value of token pos, for every kv head: out of its slot if cached, out of the new rows if not. */
  function TokenAt(c: X.Launch, i: nat, pos: nat): (seq<seq<real>>, seq<seq<real>>)
    requires c.Valid() && i < c.Batch() && pos < Tokens(c, i)
  {
    assert c.SeqValid(i);
    var prefix := c.kvIndptr[i + 1] - c.kvIndptr[i];
    if pos < prefix then
      (c.kBuf[c.kvIndices[c.kvIndptr[i] + pos]], c.vBuf[c.kvIndices[c.kvIndptr[i] + pos]])
    else
      (c.kExtend[c.qoIndptr[i] + pos - prefix], c.vExtend[c.qoIndptr[i] + pos - prefix])
  }

  /** Row `row` of the new tokens is the query at position `at`. */
  ghost predicate IsRow(c: X.Launch, i: nat, at: nat, row: nat)
    requires c.Valid() && i < c.Batch()
  {
    assert c.SeqValid(i);
    at == (c.kvIndptr[i + 1] - c.kvIndptr[i]) + row && row < c.qoIndptr[i + 1] - c.qoIndptr[i]
  }

  /** Its queries, by head. */
  function Query(c: X.Launch, i: nat, row: nat): (q: seq<seq<real>>)
    requires c.Valid() && i < c.Batch() && row < c.qoIndptr[i + 1] - c.qoIndptr[i]
    ensures |q| == c.heads
  {
    assert c.SeqValid(i);
    c.q[c.qoIndptr[i] + row]
  }

  /** The first n tokens of the two requests are the same. */
  ghost predicate SameTokens(c: X.Launch, i: nat, c': X.Launch, i': nat, n: nat)
    requires c.Valid() && i < c.Batch() && c'.Valid() && i' < c'.Batch()
  {
    && n <= Tokens(c, i) && n <= Tokens(c', i')
    && forall pos :: 0 <= pos < n ==> TokenAt(c, i, pos) == TokenAt(c', i', pos)
  }

  /** What head h of a row sees of a token: its kv head is h div group, cached or new. */
  lemma {:induction false} KeyIs(E: ExpLog, c: X.Launch, i: nat, at: nat, row: nat, h: nat, pos: nat)
    requires E.Laws() && c.Valid() && i < c.Batch() && IsRow(c, i, at, row) && h < c.heads && pos < Tokens(c, i)
    ensures var g := h / c.group;
      && g < c.kvHeads && |TokenAt(c, i, pos).0| == |TokenAt(c, i, pos).1| == c.kvHeads
      && c.KeyAt(E, i, h, row, pos).value == TokenAt(c, i, pos).1[g]
      && c.KeyAt(E, i, h, row, pos).score
         == if (c.causal && pos > at) || (c.window > 0 && at > pos + c.window) then NegInf
            else Fin(D.Capped(E, c.logitCap, ScaledDot(Query(c, i, row)[h], TokenAt(c, i, pos).0[g], c.smScale)))
  {
    assert c.SeqValid(i);
    DivBelow(h, c.group, c.kvHeads);
  }

  lemma {:induction false} SameKey(E: ExpLog, c: X.Launch, i: nat, row: nat, c': X.Launch, i': nat, row': nat,
                                   at: nat, h: nat, pos: nat)
    requires E.Laws() && c.Valid() && i < c.Batch() && c'.Valid() && i' < c'.Batch() && SameLayer(c, c')
    requires IsRow(c, i, at, row) && IsRow(c', i', at, row') && h < c.heads
    requires Query(c, i, row)[h] == Query(c', i', row')[h]
    requires pos < Tokens(c, i) && pos < Tokens(c', i') && TokenAt(c, i, pos) == TokenAt(c', i', pos)
    ensures c.KeyAt(E, i, h, row, pos) == c'.KeyAt(E, i', h, row', pos)
  {
    hide TokenAt, X.Launch.KeyAt, X.Launch.Valid;
    KeyIs(E, c, i, at, row, h, pos);
    KeyIs(E, c', i', at, row', h, pos);
    var key, key' := c.KeyAt(E, i, h, row, pos), c'.KeyAt(E, i', h, row', pos);
    assert key.score == key'.score && key.value == key'.value;
  }

  /** Chunked prefill. However the tokens of a request are divided between cache and new rows, and wherever
      they are kept, the query at a position gets the same row - of every head, under every mask and window;
      and under a causal mask tokens that come later make no difference. */
  lemma {:induction false} ChunkedRow(E: ExpLog, c: X.Launch, i: nat, row: nat, c': X.Launch, i': nat, row': nat,
                                      at: nat, h: nat, d: nat)
    requires E.Laws() && c.Valid() && i < c.Batch() && c'.Valid() && i' < c'.Batch() && SameLayer(c, c')
    requires IsRow(c, i, at, row) && IsRow(c', i', at, row') && h < c.heads && d < c.dv
    requires Query(c, i, row)[h] == Query(c', i', row')[h]
    requires SameTokens(c, i, c', i', Tokens(c', i'))
    requires Tokens(c', i') == Tokens(c, i) || c.causal
    ensures c.RowSpec(E, i, h, row, d) == c'.RowSpec(E, i', h, row', d)
  {
    hide Attention, X.Launch.KeyAt, TokenAt;
    var keys, keys' := c.Keys(E, i, h, row), c'.Keys(E, i', h, row');
    var n := |keys'|;
    forall pos | 0 <= pos < n ensures keys[pos] == keys'[pos] {
      SameKey(E, c, i, row, c', i', row', at, h, pos);
    }
    assert keys[..n] == keys';
    forall pos | n <= pos < |keys| ensures keys[pos].score.NegInf? {
      LaterHidden(E, c, i, row, h, pos);
    }
    HiddenTail(E, keys, n, c.dv, d, c.sinks[h]);
  }

  lemma LaterHidden(E: ExpLog, c: X.Launch, i: nat, row: nat, h: nat, pos: nat)
    requires E.Laws() && c.Valid() && i < c.Batch() && h < c.heads && c.causal
    requires row < c.ExtendLen(i) && c.PrefixLen(i) + row < pos < c.PrefixLen(i) + c.ExtendLen(i)
    ensures c.KeyAt(E, i, h, row, pos).score.NegInf?
  {
  }

  /** Hidden keys at the end count for nothing. */
  lemma {:induction false} HiddenTail(E: ExpLog, keys: seq<Key>, n: nat, dv: nat, d: nat, sink: Sink)
    requires Wide(keys, dv) && n <= |keys| && d < dv
    requires forall pos :: n <= pos < |keys| ==> keys[pos].score.NegInf?
    ensures Wide(keys[..n], dv) && Attention(E, keys[..n], dv, d, sink) == Attention(E, keys, dv, d, sink)
  {
    assert keys == keys[..n] + keys[n..];
    SumsAppend(E, keys[..n], keys[n..], dv);
    SumsMasked(E, keys[n..], dv);
  }

  /** Hidden keys in front count for nothing either. */
  lemma {:induction false} HiddenHead(E: ExpLog, keys: seq<Key>, n: nat, dv: nat, d: nat, sink: Sink)
    requires Wide(keys, dv) && n <= |keys| && d < dv
    requires forall pos :: 0 <= pos < n ==> keys[pos].score.NegInf?
    ensures Wide(keys[n..], dv) && Attention(E, keys[n..], dv, d, sink) == Attention(E, keys, dv, d, sink)
  {
    assert keys == keys[..n] + keys[n..];
    SumsAppend(E, keys[..n], keys[n..], dv);
    SumsMasked(E, keys[..n], dv);
  }

  /** A sink is one more key, of the sink's score and without a value. */
  lemma {:induction false} SinkIsKey(E: ExpLog, keys: seq<Key>, dv: nat, d: nat, logit: real)
    requires E.Laws() && Wide(keys, dv) && d < dv
    ensures var all := keys + [Key(Fin(logit), Zeros(dv))];
      Wide(all, dv) && Attention(E, keys, dv, d, WithSink(logit)) == Attention(E, all, dv, d, NoSink)
  {
    var key := Key(Fin(logit), Zeros(dv));
    SumsAppend(E, keys, [key], dv);
    D.OneKey(E, key, dv);
  }

  // ---- extending and decoding ----

  predicate SameModel(c: X.Launch, e: D.Launch) {
    && c.heads == e.heads && c.kvHeads == e.kvHeads && c.group == e.group && c.dv == e.dv
    && c.smScale == e.smScale && c.logitCap == e.logitCap && c.sinks == e.sinks
  }

  /** The first token the query at `at` sees, and the one behind the last. */
  function SeenFrom(c: X.Launch, at: nat): nat {
    if c.window > 0 && at > c.window then at - c.window else 0
  }

  function SeenTo(c: X.Launch, i: nat, at: nat): nat
    requires c.Valid() && i < c.Batch()
  {
    if c.causal then at + 1 else Tokens(c, i)
  }

  /** Row b of the decode launch has the tokens [from, to) of the request in its cache. */
  ghost predicate Holds(e: D.Launch, b: nat, c: X.Launch, i: nat, from: nat, to: nat)
    requires e.Valid() && b < |e.q| && c.Valid() && i < c.Batch() && from <= to <= Tokens(c, i)
  {
    e.Len(b) == to - from && forall n :: 0 <= n < to - from ==> CachedAt(e, b, n) == TokenAt(c, i, from + n)
  }

  /** Key and value of token n of row b of a decode launch, for every kv head. */
  function CachedAt(e: D.Launch, b: nat, n: nat): (seq<seq<real>>, seq<seq<real>>)
    requires e.Valid() && b < |e.q| && n < e.Len(b)
  {
    assert e.RowValid(b);
    var slot := e.kvIndices[e.kvIndptr[b] + n];
    (e.kBuf[slot], e.vBuf[slot])
  }

  lemma {:induction false} DecodeKeyIs(E: ExpLog, e: D.Launch, b: nat, h: nat, n: nat)
    requires E.Laws() && e.Valid() && b < |e.q| && h < e.heads && n < e.Len(b)
    ensures var g := h / e.group;
      && g < e.kvHeads && g == e.OwnHead(h) && |e.q[b]| == e.heads
      && |CachedAt(e, b, n).0| == |CachedAt(e, b, n).1| == e.kvHeads
      && e.KeyAt(E, b, h, g, n).value == CachedAt(e, b, n).1[g]
      && e.KeyAt(E, b, h, g, n).score
         == Fin(D.Capped(E, e.logitCap, ScaledDot(e.q[b][h], CachedAt(e, b, n).0[g], e.smScale)))
  {
    assert e.RowValid(b);
  }

  /** A row of an extend launch is what decoding gives the same query over the tokens it may see - those up
      to its own under a causal mask, and of these the last window + 1 under a window - for every head. In
      particular extending by one token is decoding over the prefix and that token. */
  lemma {:induction false} RowIsDecode(E: ExpLog, c: X.Launch, i: nat, at: nat, row: nat, e: D.Launch, b: nat,
                                       h: nat, d: nat)
    requires E.Laws() && c.Valid() && i < c.Batch() && IsRow(c, i, at, row) && h < c.heads && d < c.dv
    requires e.Valid() && b < |e.q| && SameModel(c, e) && |e.q[b]| == e.heads && e.q[b][h] == Query(c, i, row)[h]
    requires Holds(e, b, c, i, SeenFrom(c, at), SeenTo(c, i, at))
    ensures c.RowSpec(E, i, h, row, d) == D.WholeRow(E, e, b, h, d)
  {
    hide Attention, X.Launch.KeyAt, D.Launch.KeyAt, TokenAt, CachedAt, D.Capped, ScaledDot;
    var keys, all := c.Keys(E, i, h, row), e.Keys(E, b, h, e.OwnHead(h));
    var from, to := SeenFrom(c, at), SeenTo(c, i, at);
    forall pos | 0 <= pos < |keys|
      ensures pos < from || pos >= to ==> keys[pos].score.NegInf?
      ensures from <= pos < to ==> keys[pos] == all[pos - from]
    {
      KeyIs(E, c, i, at, row, h, pos);
      if from <= pos < to {
        DecodeKeyIs(E, e, b, h, pos - from);
        assert all[pos - from] == e.KeyAt(E, b, h, e.OwnHead(h), pos - from);
        assert CachedAt(e, b, pos - from) == TokenAt(c, i, pos);
        SameParts(keys[pos], all[pos - from]);
      }
    }
    HiddenTail(E, keys, to, c.dv, d, c.sinks[h]);
    HiddenHead(E, keys[..to], from, c.dv, d, c.sinks[h]);
    assert keys[..to][from..] == all;
  }

  lemma SameParts(a: Key, b: Key)
    ensures a.score == b.score && a.value == b.value ==> a == b
  {
  }

  // ---- the rows of a decode batch ----

  /** Row b of the batch on its own. */
  function Alone(e: D.Launch, b: nat): (s: D.Launch)
    requires e.Valid() && b < |e.q|
    ensures s.Valid() && |s.q| == 1
  {
    assert e.RowValid(b);
    var s := e.(q := [e.q[b]], kvIndptr := [0, e.kvIndptr[b + 1] - e.kvIndptr[b]],
                kvIndices := e.kvIndices[e.kvIndptr[b]..e.kvIndptr[b + 1]], numSplits := [e.numSplits[b]]);
    assert s.RowValid(0);
    s
  }

  /** A batch decodes each row as if there were no other, whatever the kernel and the grid. */
  lemma {:induction false} RowsApart(E: ExpLog, e: D.Launch, mode: HeadMap.Mode, max: nat, b: nat, h: nat, d: nat)
    requires E.Laws() && e.Valid() && mode.Ok() && b < |e.q| && h < e.heads && d < e.dv
    ensures D.DecodeSpec(E, e, mode, max, b, h, d) == D.DecodeSpec(E, Alone(e, b), mode, max, 0, h, d)
    ensures D.WholeRow(E, e, b, h, d) == D.WholeRow(E, Alone(e, b), 0, h, d)
  {
    hide Attention;
    var s := Alone(e, b);
    assert e.RowValid(b) && s.RowValid(0);
    HeadMap.KvHeadInRange(e.group, e.kvHeads, mode, h);
    SameKeys(E, e, b, h, HeadMap.KvHeadOf(e.group, mode, h));
    SameKeys(E, e, b, h, e.OwnHead(h));
  }

  lemma {:induction false} SameKeys(E: ExpLog, e: D.Launch, b: nat, h: nat, g: nat)
    requires E.Laws() && e.Valid() && b < |e.q| && h < e.heads && g < e.kvHeads
    ensures e.Keys(E, b, h, g) == Alone(e, b).Keys(E, 0, h, g)
  {
    hide D.Capped, ScaledDot;
    var s := Alone(e, b);
    assert e.RowValid(b) && s.RowValid(0);
    var ours, its := e.Keys(E, b, h, g), s.Keys(E, 0, h, g);
    assert |ours| == |its|;
    forall n | 0 <= n < |ours| ensures ours[n] == its[n] {
      assert ours[n] == e.KeyAt(E, b, h, g, n) && its[n] == s.KeyAt(E, 0, h, g, n);
    }
  }

  // ---- the cap ----

  /** The kernels' tanh is the hyperbolic tangent. */
  lemma {:induction false} TanhIs(E: ExpLog, x: real)
    requires E.Laws()
    ensures E.exp(x) + E.exp(-x) > 0.0
    ensures D.Tanh(E, x) == (E.exp(x) - E.exp(-x)) / (E.exp(x) + E.exp(-x))
    ensures -1.0 < D.Tanh(E, x) < 1.0
  {
    var p, n, m := E.exp(x), E.exp(-x), E.exp(-2.0 * x);
    assert E.AddLaw(-2.0 * x, x) && -2.0 * x + x == -x;
    TanhQuotient(p, n, m, D.Tanh(E, x));
  }

  lemma TanhQuotient(p: real, n: real, m: real, t: real)
    requires p > 0.0 && n > 0.0 && m > 0.0 && n == m * p && t == 2.0 * (1.0 / (1.0 + m)) - 1.0
    ensures t == (p - n) / (p + n) && -1.0 < t < 1.0
  {
    var s := 1.0 / (1.0 + m);
    assert s * (1.0 + m) == 1.0;
    assert t * (1.0 + m) == 1.0 - m;
    assert t * (p + n) == t * (1.0 + m) * p == p - n;
  }

  /** A cap leaves the score alone if there is none, and otherwise bends it into (-cap, cap). */
  lemma {:induction false} CappedIs(E: ExpLog, cap: real, x: real)
    requires E.Laws()
    ensures cap <= 0.0 ==> D.Capped(E, cap, x) == x
    ensures cap > 0.0 ==> -cap < D.Capped(E, cap, x) < cap
    ensures cap > 0.0 ==> D.Capped(E, cap, x) == cap * D.Tanh(E, x / cap)
  {
    if cap > 0.0 {
      TanhIs(E, x / cap);
    }
  }
}
