/** The attention impl's forward: classify the call, walk the candidate legs, and sink to the stock
    path when every one of them was skipped or declined - possibly after it had written to the cache
    or to some output rows. */
module Fallback {
  import opened IndexArith
  import opened PagedCache
  import opened Dispatch
  import Xqa = XqaVerify
  import opened Wrappers

  datatype Causal = Flag(b: bool) | PerRequest

  datatype Window = NoWindow | Pair(left: int, right: int) | Scalar(n: int)

  /** What the builder keeps on the CPU beside the query offsets: an upper bound of the lengths, exact for
      prefill rows, and which rows those are. */
  datatype Twins = Twins(upper: Option<seq<nat>>, prefilling: Option<seq<bool>>) {
    ghost predicate Exact(lens: seq<nat>) {
      && (upper.Some? ==> |upper.value| >= |lens|) && (prefilling.Some? ==> |prefilling.value| >= |lens|)
      && (upper.Some? && prefilling.Some? ==>
            forall i :: 0 <= i < |lens| && prefilling.value[i] ==> upper.value[i] == lens[i])
    }
  }

  /** The step's attention metadata. */
  datatype Meta = Meta(
    batch: Batch,
    maxQueryLen: int,
    useCascade: bool,
    causal: Causal,
    mmPrefix: bool,
    window: Window,
    rswa: bool,
    cpu: Option<Twins>)
  {
    /** Masking state the legs would ignore. */
    predicate NonPlain() {
      causal.PerRequest? || mmPrefix || rswa
      || (window.Pair? && (window.left, window.right) != (-1, -1)) || (window.Scalar? && window.n != -1)
    }

    function NumActual(): int
      requires |batch.cu| == |batch.lens| + 1
    {
      batch.cu[|batch.lens|]
    }
  }

  /** The layer's static configuration. */
  datatype Impl = Impl(headSize: nat, plainDecoder: bool, kvQuantized: bool, verifyUb: int, src: QSrc)

  /** Everything decided outside this code: libraries, toggles, capture, faults, environment. */
  datatype Env = Env(
    hardFallback: bool,
    hasFi: bool,
    capturing: bool,
    enabled: set<Leg>,
    batchOn: bool,
    batchMin: int,
    zeroing: bool,
    fiOk: bool,
    f16Cache: bool,
    planFails: bool,
    xqaReady: bool,
    xqaBuildFails: bool)

  function Classify(impl: Impl, m: Meta): Phase
    requires |m.batch.cu| == |m.batch.lens| + 1
  {
    if m.useCascade then OTHER
    else if m.maxQueryLen <= 1 then DECODE
    else if m.maxQueryLen <= impl.verifyUb && m.NumActual() == m.batch.Count() * m.maxQueryLen then VERIFY
    else PREFILL
  }

  predicate HasQuery(qsl: seq<int>, i: nat)
    requires i + 1 < |qsl|
  {
    qsl[i + 1] - qsl[i] > 0
  }

  /** `_exact_seq_lens_cpu`: the builder's upper bound when every row with queries is a prefill row,
      otherwise the device's lengths. */
  function ExactSeqLensCpu(qsl: seq<int>, cpu: Twins, device: seq<nat>): (r: seq<nat>)
    requires |qsl| == |device| + 1 && cpu.Exact(device)
    ensures |r| == |device|
    ensures forall i :: 0 <= i < |device| && HasQuery(qsl, i) ==> r[i] == device[i]
  {
    if cpu.upper.Some? && cpu.prefilling.Some?
       && forall i :: 0 <= i < |device| && HasQuery(qsl, i) ==> cpu.prefilling.value[i] then
      cpu.upper.value[..|device|]
    else device
  }

  /** Attention of one query row over a list of keys and values: what every kernel here is documented
      to compute. */
  type Kernel = (Row, seq<KV>) -> Row

  /** One layer's call: queries, new tokens (a layer that shares another layer's cache passes none), the
      batch, and the two attention functions - the exact one, and whatever the stock path computes when
      some other masking is asked for. */
  datatype Work = Work(attn: Kernel, other: nat -> Row, q: seq<Row>, tokens: Option<seq<KV>>, m: Meta, blocks: nat) {

    ghost predicate Valid() {
      var b := m.batch;
      && b.Valid(blocks) && Consistent(b, blocks)
      && |b.slots| <= |q| && b.cu[b.Count()] <= |q| && (tokens.Some? ==> |tokens.value| == |q|)
      && (forall t :: 0 <= t < |b.slots| ==> b.slots[t] < blocks * b.bs)
      && (forall i :: 0 <= i < b.Count() ==> b.RequestFits(i, blocks) && b.cu[i + 1] - b.cu[i] <= m.maxQueryLen)
      && (m.cpu.Some? ==> m.cpu.value.Exact(b.lens))
    }

    /** The cache after the call's new tokens are written. */
    function Written(cache: seq<KV>): (r: seq<KV>)
      requires Valid() && tokens.Some? && |cache| == blocks * m.batch.bs
      ensures |r| == |cache|
    {
      Write(cache, tokens.value, m.batch.slots)
    }

    /** How many of request i's tokens query row t sees under a causal mask, and without one. */
    function Sees(i: nat, t: nat, causal: bool): int
      requires |m.batch.cu| == |m.batch.lens| + 1 && i < m.batch.Count()
    {
      if causal then m.batch.lens[i] - m.batch.cu[i + 1] + t + 1 else m.batch.lens[i]
    }

    /** Row t of request i, attending to the cache under a mask. */
    function Masked(cache: seq<KV>, i: nat, t: nat, causal: bool): Row
      requires Valid() && |cache| == blocks * m.batch.bs && i < m.batch.Count()
      requires m.batch.cu[i] <= t < m.batch.cu[i + 1]
    {
      assert m.batch.RequestFits(i, blocks);
      attn(q[RowIndex(i, t)], Tokens(cache, m.batch, blocks, i)[..Sees(i, t, causal)])
    }

    /** The mask the step asks for. */
    predicate Causally() {
      m.causal != Flag(false)
    }

    function RowIndex(i: nat, t: nat): (r: nat)
      requires Valid() && i < m.batch.Count() && m.batch.cu[i] <= t < m.batch.cu[i + 1]
      ensures r == t < |q|
    {
      Ordered(m.batch, blocks, i + 1, m.batch.Count());
      t
    }

    /** What the stock path leaves in row t. */
    function Stock(impl: Impl, cache: seq<KV>, i: nat, t: nat): Row
      requires Valid() && |cache| == blocks * m.batch.bs && i < m.batch.Count()
      requires m.batch.cu[i] <= t < m.batch.cu[i + 1]
    {
      if impl.plainDecoder && !m.NonPlain() && !m.useCascade then Masked(cache, i, t, Causally()) else other(t)
    }
  }

  ghost predicate InRequest(w: Work, i: nat, t: nat)
    requires w.Valid()
  {
    i < w.m.batch.Count() && w.m.batch.cu[i] <= t < w.m.batch.cu[i + 1]
  }

  /** The first n requests' rows are the attention over the cache under the mask. */
  ghost predicate RowsMasked(w: Work, cache: seq<KV>, out: seq<Row>, causal: bool, n: nat)
    requires w.Valid() && |cache| == w.blocks * w.m.batch.bs && |out| == |w.q|
  {
    forall i: nat, t: nat :: i < n && InRequest(w, i, t) ==> out[w.RowIndex(i, t)] == w.Masked(cache, i, t, causal)
  }

  /** The first n requests' rows are what the stock path leaves. */
  ghost predicate RowsStock(impl: Impl, w: Work, cache: seq<KV>, out: seq<Row>, n: nat)
    requires w.Valid() && |cache| == w.blocks * w.m.batch.bs && |out| == |w.q|
  {
    forall i: nat, t: nat :: i < n && InRequest(w, i, t) ==> out[w.RowIndex(i, t)] == w.Stock(impl, cache, i, t)
  }

  lemma StockStored(impl: Impl, w: Work, cache: seq<KV>, before: seq<Row>, after: seq<Row>, i: nat)
    requires w.Valid() && |cache| == w.blocks * w.m.batch.bs && |before| == |after| == |w.q|
    requires i < w.m.batch.Count() && RowsStock(impl, w, cache, before, i)
    requires forall t: nat :: InRequest(w, i, t) ==> after[w.RowIndex(i, t)] == w.Stock(impl, cache, i, t)
    requires forall t :: 0 <= t < |w.q| && t < w.m.batch.cu[i] ==> after[t] == before[t]
    ensures RowsStock(impl, w, cache, after, i + 1)
  {
    forall i': nat, t: nat | i' < i + 1 && InRequest(w, i', t)
      ensures after[w.RowIndex(i', t)] == w.Stock(impl, cache, i', t)
    {
      if i' < i {
        Ordered(w.m.batch, w.blocks, i' + 1, i);
      }
    }
  }

  /** o holds request i's rows. */
  ghost predicate RequestMasked(w: Work, cache: seq<KV>, i: nat, causal: bool, o: seq<Row>)
    requires w.Valid() && |cache| == w.blocks * w.m.batch.bs && i < w.m.batch.Count()
  {
    && |o| == w.m.batch.cu[i + 1] - w.m.batch.cu[i]
    && forall t: nat :: InRequest(w, i, t) ==> o[t - w.m.batch.cu[i]] == w.Masked(cache, i, t, causal)
  }

  /** Storing request i's slice of the output adds its rows and keeps the earlier ones. */
  lemma {:induction false} SliceStored(w: Work, cache: seq<KV>, before: seq<Row>, after: seq<Row>, i: nat,
                                       causal: bool, o: seq<Row>)
    requires w.Valid() && |cache| == w.blocks * w.m.batch.bs && |before| == |after| == |w.q|
    requires i < w.m.batch.Count() && RequestMasked(w, cache, i, causal, o) && RowsMasked(w, cache, before, causal, i)
    requires forall t :: 0 <= t < |w.q| ==>
      after[t] == if w.m.batch.cu[i] <= t < w.m.batch.cu[i + 1] then o[t - w.m.batch.cu[i]] else before[t]
    ensures RowsMasked(w, cache, after, causal, i + 1)
  {
    forall i': nat, t: nat | i' < i + 1 && InRequest(w, i', t)
      ensures after[w.RowIndex(i', t)] == w.Masked(cache, i', t, causal)
    {
      if i' < i {
        Ordered(w.m.batch, w.blocks, i' + 1, i);
      }
    }
  }

  /** FlashInfer's single prefill over one request: bottom-right aligned when causal. */
  function FiPrefill(attn: Kernel, qs: seq<Row>, kvs: seq<KV>, causal: bool): (o: seq<Row>)
    requires |qs| <= |kvs|
    ensures |o| == |qs|
    ensures forall j :: 0 <= j < |qs| ==>
      o[j] == attn(qs[j], if causal then kvs[..|kvs| - |qs| + j + 1] else kvs)
  {
    seq(|qs|, j requires 0 <= j < |qs| => attn(qs[j], if causal then kvs[..|kvs| - |qs| + j + 1] else kvs))
  }

  /** sl are the lengths of all requests that have queries. */
  ghost predicate Lengths(w: Work, sl: seq<nat>)
    requires w.Valid()
  {
    |sl| == w.m.batch.Count() && forall i :: 0 <= i < |sl| && HasQuery(w.m.batch.cu, i) ==> sl[i] == w.m.batch.lens[i]
  }

  /** Request i's n tokens out of the cache. */
  function GatherRequest(w: Work, cache: seq<KV>, i: nat, n: nat): (r: seq<KV>)
    requires w.Valid() && |cache| == w.blocks * w.m.batch.bs && i < w.m.batch.Count() && n == w.m.batch.lens[i]
    ensures r == Tokens(cache, w.m.batch, w.blocks, i)
  {
    var b := w.m.batch;
    BlocksReach(b, w.blocks, i);
    GatherOne(cache, b.table[i][..CeilDiv(n, b.bs)], b.bs, n)
  }

  // ---- what the legs do, by their own guards ----

  /** The lengths `fp16pv_prefill` works with: from the CPU if the offsets are there too. */
  function CallLengths(w: Work): (sl: seq<nat>)
    requires w.Valid()
    ensures Lengths(w, sl)
  {
    if w.m.cpu.Some? then ExactSeqLensCpu(w.m.batch.cu, w.m.cpu.value, w.m.batch.lens) else w.m.batch.lens
  }

  /** Request i has queries whose operands leave the fp16 range. */
  ghost predicate OutOfRange(w: Work, cache: seq<KV>, inRange: (seq<Row>, seq<KV>) -> bool, i: nat)
    requires w.Valid() && |cache| == w.blocks * w.m.batch.bs
  {
    && i < w.m.batch.Count() && 0 <= w.m.batch.cu[i] < w.m.batch.cu[i + 1] <= |w.q|
    && !inRange(w.q[w.m.batch.cu[i]..w.m.batch.cu[i + 1]], Tokens(cache, w.m.batch, w.blocks, i))
  }

  /** A decode row folded into a prefill batch. */
  predicate DecodeRow(b: Batch, i: nat)
    requires |b.cu| == |b.lens| + 1
  {
    i < b.Count() && b.cu[i + 1] - b.cu[i] == 1 && b.lens[i] > 1
  }

  ghost predicate LongRows(b: Batch, n: nat)
    requires |b.cu| == |b.lens| + 1 && n <= |b.lens|
  {
    forall i :: 0 <= i < n ==> b.cu[i + 1] - b.cu[i] > 1
  }

  /** The call takes the batched path. */
  ghost predicate Batched(e: Env, impl: Impl, w: Work, leg: Leg)
    requires w.Valid()
  {
    var b := w.m.batch;
    && e.batchOn && leg == Fp16pv && impl.headSize <= 256 && e.f16Cache && e.fiOk
    && w.m.cpu.Some? && b.Count() > 0 && LongRows(b, b.Count()) && b.cu[b.Count()] >= e.batchMin
  }

  ghost predicate Uniform(w: Work)
    requires w.Valid()
  {
    w.m.maxQueryLen > 1 && w.m.NumActual() == w.m.batch.Count() * w.m.maxQueryLen
  }

  /** The leg gets as far as its own cache write. */
  ghost predicate Reaches(e: Env, impl: Impl, w: Work, leg: Leg)
    requires w.Valid()
  {
    match leg
    case Sage => false
    case XqaVerify =>
      && Uniform(w) && impl.headSize in Xqa.HEAD_DIMS && impl.src != OTHER_SRC
      && w.m.batch.bs in Xqa.PAGE_SIZES
    case _ =>
      && e.hasFi && !(impl.headSize <= 256 && exists i: nat :: DecodeRow(w.m.batch, i))
      && (Batched(e, impl, w, leg) || impl.headSize >= 256)
  }

  /** Having written, the leg gets its module or its plan. */
  ghost predicate Planned(e: Env, impl: Impl, w: Work, leg: Leg)
    requires w.Valid()
  {
    if leg == XqaVerify then e.xqaReady || (!e.capturing && !e.xqaBuildFails)
    else Batched(e, impl, w, leg) ==> !e.planFails
  }

  /** Having written, the leg does not decline. */
  ghost predicate Completes(e: Env, impl: Impl, w: Work, leg: Leg, inRange: (seq<Row>, seq<KV>) -> bool, cache: seq<KV>)
    requires w.Valid() && |cache| == w.blocks * w.m.batch.bs
  {
    Planned(e, impl, w, leg) && !(leg == Bf16cvt && exists i: nat :: OutOfRange(w, cache, inRange, i))
  }

  /** The leg masks causally whatever the step asks for. */
  ghost predicate AlwaysCausal(e: Env, impl: Impl, w: Work, leg: Leg)
    requires w.Valid()
  {
    leg == XqaVerify || Batched(e, impl, w, leg)
  }

  ghost predicate LegMask(e: Env, impl: Impl, w: Work, leg: Leg)
    requires w.Valid()
  {
    AlwaysCausal(e, impl, w, leg) || w.Causally()
  }

  /** out.zero_() of one row. */
  function Zeroed(r: Row): (z: Row)
    ensures |z| == |r| && forall d :: 0 <= d < |z| ==> z[d] == 0.0
  {
    seq(|r|, _ => 0.0)
  }

  /** Rows past the last request's: nobody's queries, padding of a captured graph. */
  ghost predicate Padding(w: Work, before: seq<Row>, after: seq<Row>, zeroed: bool)
    requires w.Valid() && |before| == |after|
  {
    forall t :: 0 <= t < |after| && w.m.batch.cu[w.m.batch.Count()] <= t ==>
      after[t] == if zeroed then Zeroed(before[t]) else before[t]
  }

  /** What became of a leg. A missing key or value is an error of the cache write, which is not a decline. */
  datatype Outcome = Declined | Raised | Returned

  /** A leg's whole effect. */
  ghost predicate LegDone(e: Env, impl: Impl, w: Work, leg: Leg, inRange: (seq<Row>, seq<KV>) -> bool,
                          cache: seq<KV>, out: seq<Row>, cache': seq<KV>, out': seq<Row>, r: Outcome)
    requires w.Valid() && |cache| == |cache'| == w.blocks * w.m.batch.bs && |out| == |out'| == |w.q|
  {
    var reached := Reaches(e, impl, w, leg);
    && cache' == (if reached && w.tokens.Some? then w.Written(cache) else cache)
    && (r.Raised? <==> reached && w.tokens.None?)
    && (r.Returned? <==> reached && w.tokens.Some? && Completes(e, impl, w, leg, inRange, cache'))
    && (r.Returned? ==> RowsMasked(w, cache', out', LegMask(e, impl, w, leg), w.m.batch.Count()))
    && Padding(w, out, out', r.Returned? && e.zeroing && Batched(e, impl, w, leg))
    && (!reached || r.Raised? ==> out' == out)
  }

  class Device {
    const cache: array<KV>
    const out: array<Row>

    constructor (cache: array<KV>, out: array<Row>)
      ensures this.cache == cache && this.out == out
    {
      this.cache, this.out := cache, out;
    }

    /** The buffers fit the call. */
    ghost predicate Fits(w: Work) {
      w.Valid() && cache.Length == w.blocks * w.m.batch.bs && out.Length == |w.q|
    }

    /** Store request i's slice of the output. */
    method StoreRequest(w: Work, i: nat, ghost causal: bool, o: seq<Row>)
      requires Fits(w) && i < w.m.batch.Count() && RequestMasked(w, cache[..], i, causal, o)
      requires RowsMasked(w, cache[..], out[..], causal, i)
      modifies out
      ensures RowsMasked(w, cache[..], out[..], causal, i + 1) && cache[..] == old(cache[..])
      ensures Padding(w, old(out[..]), out[..], false)
    {
      hide Work.Valid, RowsMasked, RequestMasked, Write;
      ghost var before, kv := out[..], cache[..];
      SliceInside(w, kv, i, causal, o);
      var s := w.m.batch.cu[i];
      forall j | 0 <= j < |o| {
        out[s + j] := o[j];
      }
      assert cache[..] == kv;
      SliceStored(w, kv, before, out[..], i, causal, o);
    }

    /** FlashInfer's batched prefill: the whole batch at once, masking causally. */
    method RunBatch(w: Work, sl: seq<nat>)
      requires Fits(w) && Lengths(w, sl) && LongRows(w.m.batch, w.m.batch.Count())
      modifies out
      ensures cache[..] == old(cache[..]) && RowsMasked(w, cache[..], out[..], true, w.m.batch.Count())
      ensures Padding(w, old(out[..]), out[..], false)
    {
      hide Work.Valid, RowsMasked, RequestMasked, Write, Tokens, FiPrefill;
      ghost var kv := cache[..];
      NoRows(w, kv, out[..], true);
      for i := 0 to w.m.batch.Count()
        invariant cache[..] == kv && RowsMasked(w, kv, out[..], true, i)
        invariant Padding(w, old(out[..]), out[..], false)
      {
        RequestBounds(w, i);
        assert HasQuery(w.m.batch.cu, i);
        var o := FiPrefill(w.attn, w.q[w.m.batch.cu[i]..w.m.batch.cu[i + 1]],
                           GatherRequest(w, cache[..], i, sl[i]), true);
        PrefillRequest(w, kv, i, true);
        StoreRequest(w, i, true, o);
      }
    }

    /** XQA verify: query and output viewed as [requests, q_seq_len], the mask lower-triangular over
        each request's last q_seq_len positions. */
    method RunVerify(w: Work)
      requires Fits(w) && Uniform(w)
      modifies out
      ensures cache[..] == old(cache[..]) && RowsMasked(w, cache[..], out[..], true, w.m.batch.Count())
      ensures Padding(w, old(out[..]), out[..], false)
    {
      hide Work.Valid, RowsMasked, RequestMasked, Write, Tokens, FiPrefill;
      ghost var kv := cache[..];
      NoRows(w, kv, out[..], true);
      var qLen := w.m.maxQueryLen;
      for i := 0 to w.m.batch.Count()
        invariant cache[..] == kv && RowsMasked(w, kv, out[..], true, i)
        invariant Padding(w, old(out[..]), out[..], false)
      {
        RequestBounds(w, i);
        UniformRows(w, i);
        var s := i * qLen;
        var o := FiPrefill(w.attn, w.q[s..s + qLen], Tokens(cache[..], w.m.batch, w.blocks, i), true);
        PrefillRequest(w, kv, i, true);
        StoreRequest(w, i, true, o);
      }
    }

    /** One request of the per-request leg: cut it out, take its new tokens when it has no context and gather
        the cache otherwise, check the fp16 range when upcasting, run under the step's mask. */
    method OneRequest(w: Work, sl: seq<nat>, leg: Leg, inRange: (seq<Row>, seq<KV>) -> bool, i: nat)
      returns (declined: bool, o: seq<Row>)
      requires Fits(w) && !w.m.causal.PerRequest? && w.tokens.Some? && w.Written(cache[..]) == cache[..]
      requires Lengths(w, sl) && i < w.m.batch.Count() && w.m.batch.cu[i] < w.m.batch.cu[i + 1]
      ensures declined <==> leg == Bf16cvt && OutOfRange(w, cache[..], inRange, i)
      ensures !declined ==> RequestMasked(w, cache[..], i, w.Causally(), o)
    {
      hide Work.Valid, RequestMasked, Write, Tokens, FiPrefill, OutOfRange, Work.Written;
      ghost var kv := cache[..];
      var causal := w.m.causal.b;
      RequestBounds(w, i);
      FreshIsGathered(w, kv, i);
      RangeIs(w, kv, inRange, i);
      var s, e := w.m.batch.cu[i], w.m.batch.cu[i + 1];
      assert HasQuery(w.m.batch.cu, i);
      var ctx := sl[i] - (e - s);
      var qs := w.q[s..e];
      var kvs := if ctx <= 0 then w.tokens.value[s..e] else GatherRequest(w, cache[..], i, sl[i]);
      if leg == Bf16cvt && !inRange(qs, kvs) {
        return true, [];
      }
      o := if e - s == 1 then [w.attn(qs[0], kvs)] else FiPrefill(w.attn, qs, kvs, causal);
      PrefillRequest(w, kv, i, causal);
      SingleRow(w.attn, qs, kvs, causal);
      declined := false;
    }

    /** The per-request leg: one request after the other, storing its slice. */
    method RunPerRequest(w: Work, sl: seq<nat>, leg: Leg, inRange: (seq<Row>, seq<KV>) -> bool) returns (declined: bool)
      requires Fits(w) && !w.m.causal.PerRequest? && w.tokens.Some? && w.Written(cache[..]) == cache[..]
      requires Lengths(w, sl)
      modifies out
      ensures cache[..] == old(cache[..])
      ensures declined <==> leg == Bf16cvt && exists i: nat :: OutOfRange(w, cache[..], inRange, i)
      ensures !declined ==> RowsMasked(w, cache[..], out[..], w.Causally(), w.m.batch.Count())
      ensures Padding(w, old(out[..]), out[..], false)
    {
      hide Work.Valid, RowsMasked, RequestMasked, Write, OutOfRange, Padding, Work.Written, Lengths;
      ghost var kv := cache[..];
      NoPadding(w, out[..]);
      NoRows(w, kv, out[..], w.Causally());
      for i := 0 to w.m.batch.Count()
        invariant cache[..] == kv && RowsMasked(w, kv, out[..], w.Causally(), i)
        invariant leg == Bf16cvt ==> forall j: nat :: j < i ==> !OutOfRange(w, kv, inRange, j)
        invariant Padding(w, old(out[..]), out[..], false)
      {
        RangeIs(w, kv, inRange, i);
        if w.m.batch.cu[i + 1] > w.m.batch.cu[i] {
          var fails, o := OneRequest(w, sl, leg, inRange, i);
          if fails {
            return true;
          }
          ghost var before := out[..];
          StoreRequest(w, i, w.Causally(), o);
          PaddingAgain(w, old(out[..]), before, out[..], false);
        } else {
          EmptyRequest(w, kv, out[..], w.Causally(), i);
        }
      }
      RangeEnds(w, kv, inRange);
      return false;
    }

    /** The query lengths: is a decode row mixed in where that matters, and how short is the shortest. */
    static method ScanRows(w: Work, sl: seq<nat>, small: bool) returns (mixed: bool, shortest: int)
      requires w.Valid() && Lengths(w, sl)
      ensures mixed <==> small && exists i: nat :: DecodeRow(w.m.batch, i)
      ensures !mixed ==> (shortest > 1 <==> w.m.batch.Count() > 0 && LongRows(w.m.batch, w.m.batch.Count()))
    {
      var b := w.m.batch;
      shortest := if b.Count() == 0 then 0 else b.cu[1] - b.cu[0];
      for i := 0 to b.Count()
        invariant small ==> forall j: nat :: j < i ==> !DecodeRow(b, j)
        invariant shortest > 1 <==> b.Count() > 0 && LongRows(b, if i == 0 then 1 else i)
      {
        var qLen := b.cu[i + 1] - b.cu[i];
        assert qLen == 1 ==> HasQuery(b.cu, i);
        if small && qLen == 1 && sl[i] > 1 {
          assert DecodeRow(b, i);
          return true, shortest;
        }
        shortest := if qLen < shortest then qLen else shortest;
      }
      assert small ==> forall i: nat :: !DecodeRow(b, i);
      mixed := false;
    }

    /** A leg's own cache write. */
    method WriteTokens(w: Work)
      requires Fits(w) && w.tokens.Some?
      modifies cache
      ensures cache[..] == w.Written(old(cache[..])) == w.Written(cache[..])
    {
      ghost var before := cache[..];
      ReshapeAndCache(cache, w.tokens.value, w.m.batch.slots);
      WriteTwice(before, w.tokens.value, w.m.batch.slots);
    }

    /** `fp16pv_prefill`. */
    method Fp16Prefill(e: Env, impl: Impl, w: Work, leg: Leg, inRange: (seq<Row>, seq<KV>) -> bool)
      returns (r: Outcome)
      requires Fits(w) && !w.m.causal.PerRequest? && leg in {Fp16pv, Bf16cvt}
      modifies cache, out
      ensures LegDone(e, impl, w, leg, inRange, old(cache[..]), old(out[..]), cache[..], out[..], r)
    {
      hide OutOfRange, RowsMasked, DecodeRow, LongRows, Work.Valid, Work.Written;
      if !e.hasFi {
        return Declined;
      }
      RequestEnds(w);
      var sl := CallLengths(w);
      var mixed, shortest := ScanRows(w, sl, impl.headSize <= 256);
      if mixed {
        return Declined;
      }
      var batched := e.batchOn && leg == Fp16pv && impl.headSize <= 256 && e.f16Cache && w.m.cpu.Some? && shortest > 1
                     && w.m.batch.cu[w.m.batch.Count()] >= e.batchMin && e.fiOk;
      assert batched == Batched(e, impl, w, leg);
      if !batched && impl.headSize < 256 {
        return Declined;
      }
      if w.tokens.None? {
        return Raised;
      }
      WriteTokens(w);
      if batched {
        if e.planFails {
          return Declined;
        }
        if e.zeroing {
          forall t | 0 <= t < out.Length {
            out[t] := Zeroed(out[t]);
          }
        }
        ghost var zeros := out[..];
        RunBatch(w, sl);
        PaddingKept(w, old(out[..]), zeros, out[..], e.zeroing);
        return Returned;
      }
      var declined := RunPerRequest(w, sl, leg, inRange);
      r := if declined then Declined else Returned;
    }

    /** `xqa_verify`. */
    method VerifyLeg(e: Env, impl: Impl, w: Work, ghost inRange: (seq<Row>, seq<KV>) -> bool)
      returns (r: Outcome)
      requires Fits(w)
      modifies cache, out
      ensures LegDone(e, impl, w, XqaVerify, inRange, old(cache[..]), old(out[..]), cache[..], out[..], r)
    {
      hide RowsMasked, Work.Valid, Work.Written, Batched;
      RequestEnds(w);
      if w.m.maxQueryLen <= 1 || w.m.NumActual() != w.m.batch.Count() * w.m.maxQueryLen {
        return Declined;
      }
      if impl.headSize !in Xqa.HEAD_DIMS || impl.src == OTHER_SRC || w.m.batch.bs !in Xqa.PAGE_SIZES {
        return Declined;
      }
      if w.tokens.None? {
        return Raised;
      }
      WriteTokens(w);
      if !e.xqaReady && (e.capturing || e.xqaBuildFails) {
        return Declined;
      }
      VerifyNotBatched(e, impl, w);
      RunVerify(w);
      return Returned;
    }

    /** `_run`. */
    method RunLeg(e: Env, impl: Impl, w: Work, leg: Leg, inRange: (seq<Row>, seq<KV>) -> bool)
      returns (r: Outcome)
      requires Fits(w) && !w.m.causal.PerRequest?
      modifies cache, out
      ensures LegDone(e, impl, w, leg, inRange, old(cache[..]), old(out[..]), cache[..], out[..], r)
    {
      hide LegDone;
      match leg
      case Fp16pv => r := Fp16Prefill(e, impl, w, leg, inRange);
      case Bf16cvt => r := Fp16Prefill(e, impl, w, leg, inRange);
      case XqaVerify => r := VerifyLeg(e, impl, w, inRange);
      case Sage =>
        SageDeclines(e, impl, w, inRange, cache[..], out[..]);
        r := Declined;
    }

    /** The stock path: every row of every request, and no cache write of its own. */
    method StockForward(impl: Impl, w: Work)
      requires Fits(w)
      modifies out
      ensures cache[..] == old(cache[..])
      ensures RowsStock(impl, w, cache[..], out[..], w.m.batch.Count()) && Padding(w, old(out[..]), out[..], false)
    {
      hide Work.Valid, RowsStock, Write;
      ghost var kv := cache[..];
      NoStockRows(impl, w, kv, out[..]);
      for i := 0 to w.m.batch.Count()
        invariant cache[..] == kv && RowsStock(impl, w, kv, out[..], i)
        invariant Padding(w, old(out[..]), out[..], false)
      {
        RequestBounds(w, i);
        ghost var before := out[..];
        forall t | w.m.batch.cu[i] <= t < w.m.batch.cu[i + 1] {
          out[t] := w.Stock(impl, cache[..], i, t);
        }
        assert cache[..] == kv;
        StockStored(impl, w, kv, before, out[..], i);
      }
    }

    /** forward(), for head sizes the stock path also takes. An error leaves the outputs as they were; the
        cache is written by the leg that is tried, if it gets that far, and by nothing else; and every row
        is that leg's, or the stock path's when the leg declined. */
    method Forward(e: Env, impl: Impl, w: Work, inRange: (seq<Row>, seq<KV>) -> bool) returns (raised: bool)
      requires Fits(w) && impl.headSize <= 256
      modifies cache, out
      ensures raised <==> Reached(e, impl, w) && w.tokens.None?
      ensures cache[..] == AfterForward(e, impl, w, old(cache[..]))
      ensures w.tokens.None? || w.Written(old(cache[..])) == old(cache[..]) ==> cache[..] == old(cache[..])
      ensures raised ==> out[..] == old(out[..])
      ensures !raised ==> RowsForward(e, impl, w, inRange, cache[..], out[..])
      ensures !raised ==> Padding(w, old(out[..]), out[..], Zeroes(e, impl, w, inRange, cache[..]))
      ensures w.m.mmPrefix || w.m.rswa || w.m.causal.PerRequest?
              || w.m.window !in {NoWindow, Pair(-1, -1), Scalar(-1)} ==>
        !raised && cache[..] == old(cache[..]) && RowsOther(w, out[..])
    {
      hide LegDone, RowsStock, RowsForward, RowsOther, Padding, Tried, Reaches, Completes;
      OtherMaskingSinks(e, impl, w, inRange);
      if e.hardFallback || w.m.NonPlain() {
        StockForward(impl, w);
        Untried(e, impl, w, inRange, cache[..], out[..]);
        return false;
      }
      var phase := Classify(impl, w.m);
      if phase == DECODE || phase == OTHER {
        StockForward(impl, w);
        Untried(e, impl, w, inRange, cache[..], out[..]);
        return false;
      }
      ghost var c0, o0 := cache[..], out[..];
      var entries := Resolve(DEFAULT_ROWS, Key(phase, impl.headSize, impl.src, impl.kvQuantized, impl.plainDecoder));
      StartsUntouched(e, impl, w, inRange, entries, c0, o0);
      for n := 0 to |entries|
        invariant Trying(e, impl, w, inRange, entries, n, c0, o0, cache[..], out[..])
      {
        if !(e.capturing && !entries[n].captureSafe) && entries[n].leg in e.enabled {
          ghost var c1, o1 := cache[..], out[..];
          var r := RunLeg(e, impl, w, entries[n].leg, inRange);
          LegTried(e, impl, w, inRange, entries, n, c0, o0, c1, o1, cache[..], out[..], r);
          if r != Declined {
            return r == Raised;
          }
        } else {
          LegSkipped(e, impl, w, inRange, entries, n, c0, o0, cache[..], out[..]);
        }
      }
      ghost var c1, o1 := cache[..], out[..];
      StockForward(impl, w);
      AllDeclined(e, impl, w, inRange, entries, c0, o0, c1, o1, out[..]);
      return false;
    }

    /** One layer of a step, from any cache: its own cache update unless it shares another layer's cache or
        has nothing to write, then forward. */
    method Layer(sharing: bool, e: Env, impl: Impl, w: Work, inRange: (seq<Row>, seq<KV>) -> bool)
      returns (raised: bool)
      requires Fits(w) && impl.headSize <= 256
      modifies cache, out
      ensures raised <==> Reached(e, impl, w) && w.tokens.None?
      ensures cache[..] == LayerCache(sharing, e, impl, w, old(cache[..]))
      ensures !raised ==> RowsForward(e, impl, w, inRange, cache[..], out[..])
      ensures !raised && !WrongMask(e, impl, w) ==>
        RowsStock(impl, w, cache[..], out[..], w.m.batch.Count())
      ensures w.tokens.Some? && !sharing ==>
        forall i: nat :: i < w.m.batch.Count() ==> Extended(w, old(cache[..]), cache[..], i)
    {
      hide RowsForward, RowsStock, WrongMask, Extended, Reached, Work.Valid;
      ghost var before := cache[..];
      if w.tokens.Some? && !sharing {
        WriteTokens(w);
        forall i: nat | i < w.m.batch.Count() ensures Extended(w, before, cache[..], i) {
          ExtendedBy(w, before, i);
        }
      }
      raised := Forward(e, impl, w, inRange);
      if w.tokens.Some? {
        WrittenTwice(w, before);
      }
      if !raised && !WrongMask(e, impl, w) {
        StockRows(e, impl, w, inRange, cache[..], out[..]);
      }
    }
  }

  /** Every row is what the stock path computes for a step that is not plain. */
  ghost predicate RowsOther(w: Work, out: seq<Row>)
    requires w.Valid() && |out| == |w.q|
  {
    forall i: nat, t: nat :: InRequest(w, i, t) ==> out[w.RowIndex(i, t)] == w.other(t)
  }

  /** Masking the legs do not implement - multimodal prefixes, reference windows, causality by request, a
      window that is not one of the two ways to say none - reaches no leg: forward leaves the cache and gives
      every row what the stock path computes for such a step. */
  lemma {:induction false} OtherMaskingSinks(e: Env, impl: Impl, w: Work, inRange: (seq<Row>, seq<KV>) -> bool)
    requires w.Valid()
    ensures w.m.mmPrefix || w.m.rswa || w.m.causal.PerRequest?
            || w.m.window !in {NoWindow, Pair(-1, -1), Scalar(-1)} ==>
      && Tried(e, impl, w.m) == None && !Reached(e, impl, w)
      && forall cache, out |
           && |cache| == w.blocks * w.m.batch.bs && |out| == |w.q|
           && RowsForward(e, impl, w, inRange, cache, out) :: RowsOther(w, out)
  {
    hide Work.Valid, Reaches, Completes, Work.Masked;
  }

  /** And a step without any of it, on a plain decoder without cascade, is attention under the step's mask on
      the stock path. */
  lemma {:induction false} PlainStepIsMasked(impl: Impl, w: Work, cache: seq<KV>, i: nat, t: nat)
    requires w.Valid() && |cache| == w.blocks * w.m.batch.bs && InRequest(w, i, t)
    requires w.m.causal.Flag? && !w.m.mmPrefix && !w.m.rswa && w.m.window in {NoWindow, Pair(-1, -1), Scalar(-1)}
    requires impl.plainDecoder && !w.m.useCascade
    ensures w.Stock(impl, cache, i, t) == w.Masked(cache, i, t, w.m.causal.b)
  {
    hide Work.Valid, Work.Masked;
  }

  /** The leg that is tried, by the fields of environment, layer and step. */
  lemma {:induction false} TriedWhen(e: Env, impl: Impl, m: Meta, leg: Leg)
    requires |m.batch.cu| == |m.batch.lens| + 1
    ensures var uniform := m.maxQueryLen <= impl.verifyUb
                           && m.batch.cu[|m.batch.lens|] == |m.batch.lens| * m.maxQueryLen;
      Tried(e, impl, m) == Some(leg) <==>
        && !e.hardFallback && !m.mmPrefix && !m.rswa && m.causal.Flag?
        && m.window in {NoWindow, Pair(-1, -1), Scalar(-1)}
        && impl.plainDecoder && !impl.kvQuantized && !m.useCascade && m.maxQueryLen > 1 && leg in e.enabled
        && match leg
           case XqaVerify => uniform && impl.headSize in {64, 128, 256}
           case Fp16pv => !uniform && !e.capturing && impl.headSize in {128, 256, 512} && impl.src == HALF
           case Bf16cvt => !uniform && !e.capturing && impl.headSize in {128, 256, 512} && impl.src == BF16
           case Sage => false
  {
  }

  // ---- the leg forward tries ----

  /** The one candidate with a body that the default table offers. */
  function Candidate(impl: Impl, phase: Phase): Option<Leg> {
    if !impl.plainDecoder || impl.kvQuantized then None
    else if phase == VERIFY && impl.headSize in {64, 128, 256} then Some(XqaVerify)
    else if phase == PREFILL && impl.headSize in {128, 256, 512} && impl.src == HALF then Some(Fp16pv)
    else if phase == PREFILL && impl.headSize in {128, 256, 512} && impl.src == BF16 then Some(Bf16cvt)
    else None
  }

  /** The leg forward gets to try: offered, enabled, and safe to capture if capturing. */
  ghost function Tried(e: Env, impl: Impl, m: Meta): Option<Leg>
    requires |m.batch.cu| == |m.batch.lens| + 1
  {
    if e.hardFallback || m.NonPlain() then None
    else
      var leg := Candidate(impl, Classify(impl, m));
      if leg.Some? && leg.value in e.enabled && !(e.capturing && leg.value != XqaVerify) then leg else None
  }

  ghost predicate Reached(e: Env, impl: Impl, w: Work)
    requires w.Valid()
  {
    Tried(e, impl, w.m).Some? && Reaches(e, impl, w, Tried(e, impl, w.m).value)
  }

  /** The leg that is tried returns. */
  ghost predicate Served(e: Env, impl: Impl, w: Work, inRange: (seq<Row>, seq<KV>) -> bool, cache: seq<KV>)
    requires w.Valid() && |cache| == w.blocks * w.m.batch.bs
  {
    && Reached(e, impl, w) && w.tokens.Some?
    && Completes(e, impl, w, Tried(e, impl, w.m).value, inRange, cache)
  }

  ghost predicate Zeroes(e: Env, impl: Impl, w: Work, inRange: (seq<Row>, seq<KV>) -> bool, cache: seq<KV>)
    requires w.Valid() && |cache| == w.blocks * w.m.batch.bs
  {
    Served(e, impl, w, inRange, cache) && e.zeroing && Batched(e, impl, w, Tried(e, impl, w.m).value)
  }

  ghost function AfterForward(e: Env, impl: Impl, w: Work, cache: seq<KV>): (r: seq<KV>)
    requires w.Valid() && |cache| == w.blocks * w.m.batch.bs
    ensures |r| == |cache|
  {
    if Reached(e, impl, w) && w.tokens.Some? then w.Written(cache) else cache
  }

  /** What forward leaves in row t; `cache` is the cache it leaves. */
  ghost function ForwardRow(e: Env, impl: Impl, w: Work, inRange: (seq<Row>, seq<KV>) -> bool,
                            cache: seq<KV>, i: nat, t: nat): Row
    requires w.Valid() && |cache| == w.blocks * w.m.batch.bs && InRequest(w, i, t)
  {
    if Served(e, impl, w, inRange, cache) then
      w.Masked(cache, i, t, LegMask(e, impl, w, Tried(e, impl, w.m).value))
    else w.Stock(impl, cache, i, t)
  }

  ghost predicate RowsForward(e: Env, impl: Impl, w: Work, inRange: (seq<Row>, seq<KV>) -> bool,
                              cache: seq<KV>, out: seq<Row>)
    requires w.Valid() && |cache| == w.blocks * w.m.batch.bs && |out| == |w.q|
  {
    forall i: nat, t: nat :: InRequest(w, i, t) ==>
      out[w.RowIndex(i, t)] == ForwardRow(e, impl, w, inRange, cache, i, t)
  }

  /** An entry that forward runs. */
  predicate Eligible(e: Env, entry: Entry) {
    !(e.capturing && !entry.captureSafe) && entry.leg in e.enabled
  }

  lemma {:induction false} CandidateOffered(impl: Impl, phase: Phase, entry: Entry)
    requires phase in {PREFILL, VERIFY}
    ensures var k := Key(phase, impl.headSize, impl.src, impl.kvQuantized, impl.plainDecoder);
      var offered := Resolve(DEFAULT_ROWS, k);
      && (entry in offered && entry.leg != Sage ==>
            Candidate(impl, phase) == Some(entry.leg) && (entry.captureSafe <==> entry.leg == XqaVerify))
      && (Candidate(impl, phase).Some? ==>
            Entry(Candidate(impl, phase).value, Candidate(impl, phase) == Some(XqaVerify)) in offered)
  {
    hide Resolve;
    var k := Key(phase, impl.headSize, impl.src, impl.kvQuantized, impl.plainDecoder);
    OfferedFor(k, entry);
    if Candidate(impl, phase).Some? {
      OfferedFor(k, Entry(Candidate(impl, phase).value, Candidate(impl, phase) == Some(XqaVerify)));
    }
  }

  /** After the first n entries none has returned: nothing has been done, or the leg that is tried has been
      and declined. */
  ghost predicate Trying(e: Env, impl: Impl, w: Work, inRange: (seq<Row>, seq<KV>) -> bool,
                         entries: seq<Entry>, n: nat, c0: seq<KV>, o0: seq<Row>, c: seq<KV>, o: seq<Row>)
    requires w.Valid() && |c0| == |c| == w.blocks * w.m.batch.bs && |o0| == |o| == |w.q|
  {
    var leg := Tried(e, impl, w.m);
    && Padding(w, o0, o, false)
    && (if leg.Some? && exists j :: 0 <= j < n <= |entries| && entries[j].leg == leg.value && Eligible(e, entries[j])
        then c == AfterForward(e, impl, w, c0) && !Served(e, impl, w, inRange, c)
             && !(Reached(e, impl, w) && w.tokens.None?)
        else c == c0 && o == o0)
  }

  lemma NoPadding(w: Work, a: seq<Row>)
    requires w.Valid()
    ensures Padding(w, a, a, false)
  {
  }

  lemma PaddingAgain(w: Work, a: seq<Row>, b: seq<Row>, c: seq<Row>, zeroed: bool)
    requires w.Valid() && |a| == |b| == |c| && Padding(w, a, b, false) && Padding(w, b, c, zeroed)
    ensures Padding(w, a, c, zeroed)
  {
    hide Work.Valid;
  }

  lemma PaddingKept(w: Work, a: seq<Row>, b: seq<Row>, c: seq<Row>, zeroed: bool)
    requires w.Valid() && |a| == |b| == |c| && Padding(w, a, b, zeroed) && Padding(w, b, c, false)
    ensures Padding(w, a, c, zeroed)
  {
    hide Work.Valid;
  }

  lemma {:induction false} StartsUntouched(e: Env, impl: Impl, w: Work, inRange: (seq<Row>, seq<KV>) -> bool,
                        entries: seq<Entry>, c: seq<KV>, o: seq<Row>)
    requires w.Valid() && |c| == w.blocks * w.m.batch.bs && |o| == |w.q|
    ensures Trying(e, impl, w, inRange, entries, 0, c, o, c, o)
  {
  }

  lemma {:induction false} LegSkipped(e: Env, impl: Impl, w: Work, inRange: (seq<Row>, seq<KV>) -> bool,
                   entries: seq<Entry>, n: nat, c0: seq<KV>, o0: seq<Row>, c: seq<KV>, o: seq<Row>)
    requires w.Valid() && |c0| == |c| == w.blocks * w.m.batch.bs && |o0| == |o| == |w.q| && n < |entries|
    requires Trying(e, impl, w, inRange, entries, n, c0, o0, c, o) && !Eligible(e, entries[n])
    ensures Trying(e, impl, w, inRange, entries, n + 1, c0, o0, c, o)
  {
    hide Work.Valid, Padding, Tried, Reached, Served, AfterForward;
  }

  /** What running an eligible entry means for forward. */
  lemma {:induction false} LegTried(e: Env, impl: Impl, w: Work, inRange: (seq<Row>, seq<KV>) -> bool,
                 entries: seq<Entry>, n: nat, c0: seq<KV>, o0: seq<Row>, c1: seq<KV>, o1: seq<Row>,
                 c: seq<KV>, o: seq<Row>, r: Outcome)
    requires w.Valid() && |c0| == |c1| == |c| == w.blocks * w.m.batch.bs && |o0| == |o1| == |o| == |w.q|
    requires n < |entries| && Eligible(e, entries[n]) && !e.hardFallback && !w.m.NonPlain()
    requires Classify(impl, w.m) in {PREFILL, VERIFY}
    requires var phase := Classify(impl, w.m);
      entries == Resolve(DEFAULT_ROWS, Key(phase, impl.headSize, impl.src, impl.kvQuantized, impl.plainDecoder))
    requires Trying(e, impl, w, inRange, entries, n, c0, o0, c1, o1)
    requires LegDone(e, impl, w, entries[n].leg, inRange, c1, o1, c, o, r)
    ensures r.Declined? ==> Trying(e, impl, w, inRange, entries, n + 1, c0, o0, c, o)
    ensures !r.Declined? ==> c == AfterForward(e, impl, w, c0)
    ensures r.Raised? <==> !r.Declined? && Reached(e, impl, w) && w.tokens.None?
    ensures r.Raised? ==> o == o0
    ensures r.Returned? ==> RowsForward(e, impl, w, inRange, c, o)
    ensures r.Returned? ==> Padding(w, o0, o, Zeroes(e, impl, w, inRange, c))
  {
    hide Work.Valid, Padding, RowsMasked, Reaches, Completes, Batched, Resolve, Classify, Work.Written;
    RequestEnds(w);
    var phase, leg := Classify(impl, w.m), entries[n].leg;
    PaddingAgain(w, o0, o1, o, r.Returned? && e.zeroing && Batched(e, impl, w, leg));
    SageStays(e, impl, w);
    CandidateOffered(impl, phase, entries[n]);
    if leg != Sage {
      assert Tried(e, impl, w.m) == Some(leg);
      if w.tokens.Some? {
        WrittenTwice(w, c0);
      }
      if r.Returned? {
        RowsServed(e, impl, w, inRange, c, o);
      }
    }
  }

  lemma SageStays(e: Env, impl: Impl, w: Work)
    requires w.Valid()
    ensures !Reaches(e, impl, w, Sage)
    ensures Tried(e, impl, w.m) != Some(Sage)
  {
  }

  lemma WrittenTwice(w: Work, c: seq<KV>)
    requires w.Valid() && |c| == w.blocks * w.m.batch.bs && w.tokens.Some?
    ensures w.Written(w.Written(c)) == w.Written(c)
  {
    WriteTwice(c, w.tokens.value, w.m.batch.slots);
  }

  lemma RowsServed(e: Env, impl: Impl, w: Work, inRange: (seq<Row>, seq<KV>) -> bool, c: seq<KV>, o: seq<Row>)
    requires w.Valid() && |c| == w.blocks * w.m.batch.bs && |o| == |w.q| && Served(e, impl, w, inRange, c)
    requires RowsMasked(w, c, o, LegMask(e, impl, w, Tried(e, impl, w.m).value), w.m.batch.Count())
    ensures RowsForward(e, impl, w, inRange, c, o)
  {
    hide Served, LegMask, Tried, Work.Masked;
  }

  lemma RowsSunk(e: Env, impl: Impl, w: Work, inRange: (seq<Row>, seq<KV>) -> bool, c: seq<KV>, o: seq<Row>)
    requires w.Valid() && |c| == w.blocks * w.m.batch.bs && |o| == |w.q| && !Served(e, impl, w, inRange, c)
    requires RowsStock(impl, w, c, o, w.m.batch.Count())
    ensures RowsForward(e, impl, w, inRange, c, o)
  {
    hide Served, LegMask, Tried, Work.Stock;
  }

  /** Every entry declined or was skipped: forward has done what the stock path does. */
  lemma {:induction false} AllDeclined(e: Env, impl: Impl, w: Work, inRange: (seq<Row>, seq<KV>) -> bool,
                    entries: seq<Entry>, c0: seq<KV>, o0: seq<Row>, c: seq<KV>, o1: seq<Row>, o: seq<Row>)
    requires w.Valid() && |c0| == |c| == w.blocks * w.m.batch.bs && |o0| == |o1| == |o| == |w.q|
    requires Classify(impl, w.m) in {PREFILL, VERIFY}
    requires var phase := Classify(impl, w.m);
      entries == Resolve(DEFAULT_ROWS, Key(phase, impl.headSize, impl.src, impl.kvQuantized, impl.plainDecoder))
    requires Trying(e, impl, w, inRange, entries, |entries|, c0, o0, c, o1)
    requires RowsStock(impl, w, c, o, w.m.batch.Count()) && Padding(w, o1, o, false)
    ensures !(Reached(e, impl, w) && w.tokens.None?) && c == AfterForward(e, impl, w, c0)
    ensures RowsForward(e, impl, w, inRange, c, o) && !Zeroes(e, impl, w, inRange, c)
    ensures Padding(w, o0, o, false)
  {
    hide Work.Valid, Padding, RowsStock, RowsForward, Reaches, Completes, Resolve, Classify;
    PaddingAgain(w, o0, o1, o, false);
    RequestEnds(w);
    var phase, leg := Classify(impl, w.m), Tried(e, impl, w.m);
    if leg.Some? {
      var entry := Entry(leg.value, leg == Some(XqaVerify));
      CandidateOffered(impl, phase, entry);
      var j :| 0 <= j < |entries| && entries[j] == entry;
      assert Eligible(e, entries[j]) && entries[j].leg == leg.value;
    }
    RowsSunk(e, impl, w, inRange, c, o);
  }

  /** Forward's early ways out try no leg. */
  lemma Untried(e: Env, impl: Impl, w: Work, inRange: (seq<Row>, seq<KV>) -> bool, c: seq<KV>, o: seq<Row>)
    requires w.Valid() && |c| == w.blocks * w.m.batch.bs && |o| == |w.q|
    requires e.hardFallback || w.m.NonPlain() || Classify(impl, w.m) in {DECODE, OTHER}
    requires RowsStock(impl, w, c, o, w.m.batch.Count())
    ensures !Reached(e, impl, w) && AfterForward(e, impl, w, c) == c
    ensures RowsForward(e, impl, w, inRange, c, o) && !Zeroes(e, impl, w, inRange, c)
  {
    hide Work.Valid, RowsStock, RowsForward, Reaches, Completes;
    RowsSunk(e, impl, w, inRange, c, o);
  }

  lemma VerifyNotBatched(e: Env, impl: Impl, w: Work)
    requires w.Valid()
    ensures !Batched(e, impl, w, XqaVerify)
  {
  }

  lemma {:induction false} SageDeclines(e: Env, impl: Impl, w: Work, inRange: (seq<Row>, seq<KV>) -> bool, c: seq<KV>,
                                        o: seq<Row>)
    requires w.Valid() && |c| == w.blocks * w.m.batch.bs && |o| == |w.q|
    ensures LegDone(e, impl, w, Sage, inRange, c, o, c, o, Declined)
  {
  }

  lemma RequestEnds(w: Work)
    requires w.Valid()
    ensures |w.m.batch.cu| == w.m.batch.Count() + 1
  {
  }

  // ---- when forward is the stock path ----

  function WithAttn(w: Work, attn: Kernel): Work {
    w.(attn := attn)
  }

  /** Row t of forward is the stock path's. */
  ghost predicate RowAgrees(e: Env, impl: Impl, w: Work, inRange: (seq<Row>, seq<KV>) -> bool,
                            cache: seq<KV>, i: nat, t: nat)
    requires w.Valid() && |cache| == w.blocks * w.m.batch.bs && InRequest(w, i, t)
  {
    ForwardRow(e, impl, w, inRange, cache, i, t) == w.Stock(impl, cache, i, t)
  }

  ghost predicate RowsAgree(e: Env, impl: Impl, w: Work, inRange: (seq<Row>, seq<KV>) -> bool, cache: seq<KV>)
    requires w.Valid() && |cache| == w.blocks * w.m.batch.bs
  {
    forall i: nat, t: nat :: InRequest(w, i, t) ==> RowAgrees(e, impl, w, inRange, cache, i, t)
  }

  /** A leg that always masks causally is tried, and returns, although the step is not causal: all of it
      read off the environment, the layer and the step. */
  ghost predicate WrongMask(e: Env, impl: Impl, w: Work)
    requires w.Valid()
  {
    && !w.Causally() && Reached(e, impl, w) && w.tokens.Some?
    && AlwaysCausal(e, impl, w, Tried(e, impl, w.m).value) && Planned(e, impl, w, Tried(e, impl, w.m).value)
  }

  /** Such a leg declines for no operand. */
  lemma WrongMaskServes(e: Env, impl: Impl, w: Work, inRange: (seq<Row>, seq<KV>) -> bool, cache: seq<KV>)
    requires w.Valid() && |cache| == w.blocks * w.m.batch.bs
    ensures WrongMask(e, impl, w) <==>
      Served(e, impl, w, inRange, cache) && AlwaysCausal(e, impl, w, Tried(e, impl, w.m).value) && !w.Causally()
  {
    hide Work.Valid, Tried, Reaches, Planned, OutOfRange;
  }

  /** The attention function has no say in which leg runs. */
  lemma {:induction false} AttnApart(e: Env, impl: Impl, w: Work, attn: Kernel, inRange: (seq<Row>, seq<KV>) -> bool,
                                     cache: seq<KV>)
    requires w.Valid() && |cache| == w.blocks * w.m.batch.bs
    ensures WithAttn(w, attn).Valid()
    ensures Served(e, impl, WithAttn(w, attn), inRange, cache) == Served(e, impl, w, inRange, cache)
    ensures WrongMask(e, impl, WithAttn(w, attn)) == WrongMask(e, impl, w)
  {
    var v := WithAttn(w, attn);
    assert v.Valid();
    assert forall i: nat :: OutOfRange(v, cache, inRange, i) == OutOfRange(w, cache, inRange, i);
  }

  /** A leg that is served runs on a plain decoder and plain metadata, so the stock path's row is the
      attention under the step's mask. */
  lemma {:induction false} ServedRows(e: Env, impl: Impl, w: Work, inRange: (seq<Row>, seq<KV>) -> bool,
                                      cache: seq<KV>, i: nat, t: nat)
    requires w.Valid() && |cache| == w.blocks * w.m.batch.bs && InRequest(w, i, t) && Served(e, impl, w, inRange, cache)
    ensures w.Stock(impl, cache, i, t) == w.Masked(cache, i, t, w.Causally())
    ensures ForwardRow(e, impl, w, inRange, cache, i, t)
            == w.Masked(cache, i, t, WrongMask(e, impl, w) || w.Causally())
  {
    hide Work.Valid, Work.Masked, Completes, Reaches, Planned, WrongMask;
    WrongMaskServes(e, impl, w, inRange, cache);
  }

  /** The attention that only counts what it is shown. */
  function Counting(): Kernel {
    (q: Row, kvs: seq<KV>) => [|kvs| as real]
  }

  lemma CountingRow(w: Work, cache: seq<KV>, i: nat, t: nat, causal: bool)
    requires w.Valid() && |cache| == w.blocks * w.m.batch.bs && InRequest(w, i, t) && w.attn == Counting()
    ensures w.Masked(cache, i, t, causal) == [w.Sees(i, t, causal) as real]
  {
    assert w.m.batch.RequestFits(i, w.blocks);
  }

  /** Row by row: what forward leaves is the stock path's row, whatever the attention function, exactly
      unless a leg that always masks causally returned on a non-causal step and the row is not its
      request's last. */
  lemma {:induction false} RowIsStock(e: Env, impl: Impl, w: Work, inRange: (seq<Row>, seq<KV>) -> bool,
                                      cache: seq<KV>, i: nat, t: nat)
    requires w.Valid() && |cache| == w.blocks * w.m.batch.bs && InRequest(w, i, t)
    ensures (forall attn: Kernel :: RowAgreesFor(e, impl, w, attn, inRange, cache, i, t))
            <==> !WrongMask(e, impl, w) || t == w.m.batch.cu[i + 1] - 1
  {
    hide Work.Valid, WrongMask, Served, ForwardRow;
    RequestEnds(w);
    if !WrongMask(e, impl, w) || t == w.m.batch.cu[i + 1] - 1 {
      forall attn: Kernel ensures RowAgreesFor(e, impl, w, attn, inRange, cache, i, t) {
        AttnApart(e, impl, w, attn, inRange, cache);
        AgreesIf(e, impl, WithAttn(w, attn), inRange, cache, i, t);
      }
    } else {
      AttnApart(e, impl, w, Counting(), inRange, cache);
      DiffersIf(e, impl, WithAttn(w, Counting()), inRange, cache, i, t);
      assert !RowAgreesFor(e, impl, w, Counting(), inRange, cache, i, t);
    }
  }

  ghost predicate RowAgreesFor(e: Env, impl: Impl, w: Work, attn: Kernel, inRange: (seq<Row>, seq<KV>) -> bool,
                               cache: seq<KV>, i: nat, t: nat)
    requires w.Valid() && |cache| == w.blocks * w.m.batch.bs && InRequest(w, i, t)
  {
    AttnApart(e, impl, w, attn, inRange, cache);
    RowAgrees(e, impl, WithAttn(w, attn), inRange, cache, i, t)
  }

  lemma {:induction false} AgreesIf(e: Env, impl: Impl, w: Work, inRange: (seq<Row>, seq<KV>) -> bool, cache: seq<KV>,
                                    i: nat, t: nat)
    requires w.Valid() && |cache| == w.blocks * w.m.batch.bs && InRequest(w, i, t)
    requires !WrongMask(e, impl, w) || t == w.m.batch.cu[i + 1] - 1
    ensures RowAgrees(e, impl, w, inRange, cache, i, t)
  {
    hide Work.Valid, WrongMask, Served, Work.Stock;
    if Served(e, impl, w, inRange, cache) {
      ServedRows(e, impl, w, inRange, cache, i, t);
      LastSees(w, cache, i, t);
    }
  }

  lemma LastSees(w: Work, cache: seq<KV>, i: nat, t: nat)
    requires w.Valid() && |cache| == w.blocks * w.m.batch.bs && InRequest(w, i, t)
    ensures t == w.m.batch.cu[i + 1] - 1 ==> w.Masked(cache, i, t, true) == w.Masked(cache, i, t, false)
  {
  }

  lemma {:induction false} DiffersIf(e: Env, impl: Impl, w: Work, inRange: (seq<Row>, seq<KV>) -> bool,
                                     cache: seq<KV>, i: nat, t: nat)
    requires w.Valid() && |cache| == w.blocks * w.m.batch.bs && InRequest(w, i, t) && w.attn == Counting()
    requires WrongMask(e, impl, w) && t != w.m.batch.cu[i + 1] - 1
    ensures !RowAgrees(e, impl, w, inRange, cache, i, t)
  {
    hide Work.Valid, Work.Stock, Work.Masked, WrongMask, Served, Reached, AlwaysCausal;
    RequestEnds(w);
    WrongMaskServes(e, impl, w, inRange, cache);
    ServedRows(e, impl, w, inRange, cache, i, t);
    CountingRow(w, cache, i, t, true);
    CountingRow(w, cache, i, t, false);
    assert [w.Sees(i, t, true) as real][0] != [w.Sees(i, t, false) as real][0];
  }

  /** Fallback is invisible in the rows, for every attention function, exactly when no leg that always masks
      causally returned on a non-causal step - or there are no requests, since such a leg only returns on
      requests with more than one query. */
  lemma {:induction false} ForwardIsStock(e: Env, impl: Impl, w: Work, inRange: (seq<Row>, seq<KV>) -> bool,
                                          cache: seq<KV>)
    requires w.Valid() && |cache| == w.blocks * w.m.batch.bs
    ensures (forall attn: Kernel :: RowsAgreeFor(e, impl, w, attn, inRange, cache))
            <==> !WrongMask(e, impl, w) || w.m.batch.Count() == 0
  {
    hide Work.Valid, WrongMask, RowAgrees;
    if !WrongMask(e, impl, w) || w.m.batch.Count() == 0 {
      forall attn: Kernel ensures RowsAgreeFor(e, impl, w, attn, inRange, cache) {
        var v := WithAttn(w, attn);
        AttnApart(e, impl, w, attn, inRange, cache);
        forall i: nat, t: nat | InRequest(v, i, t) ensures RowAgrees(e, impl, v, inRange, cache, i, t) {
          AgreesIf(e, impl, v, inRange, cache, i, t);
        }
      }
    } else {
      var v := WithAttn(w, Counting());
      AttnApart(e, impl, w, Counting(), inRange, cache);
      FirstRowEarly(e, impl, v);
      DiffersIf(e, impl, v, inRange, cache, 0, 0);
      assert !RowsAgreeFor(e, impl, w, Counting(), inRange, cache);
    }
  }

  ghost predicate RowsAgreeFor(e: Env, impl: Impl, w: Work, attn: Kernel, inRange: (seq<Row>, seq<KV>) -> bool,
                               cache: seq<KV>)
    requires w.Valid() && |cache| == w.blocks * w.m.batch.bs
  {
    AttnApart(e, impl, w, attn, inRange, cache);
    RowsAgree(e, impl, WithAttn(w, attn), inRange, cache)
  }

  /** A causally masking leg only returns on requests with at least two queries each. */
  lemma {:induction false} FirstRowEarly(e: Env, impl: Impl, w: Work)
    requires w.Valid()
    requires WrongMask(e, impl, w) && w.m.batch.Count() > 0
    ensures InRequest(w, 0, 0) && w.m.batch.cu[1] > 1
  {
    var leg := Tried(e, impl, w.m).value;
    if leg == XqaVerify {
      UniformRows(w, 0);
    } else {
      assert w.m.batch.RequestFits(0, w.blocks);
      assert LongRows(w.m.batch, w.m.batch.Count());
    }
  }

  /** So the rows forward stores are the stock path's. */
  lemma StockRows(e: Env, impl: Impl, w: Work, inRange: (seq<Row>, seq<KV>) -> bool, cache: seq<KV>, out: seq<Row>)
    requires w.Valid() && |cache| == w.blocks * w.m.batch.bs && |out| == |w.q|
    requires RowsForward(e, impl, w, inRange, cache, out) && !WrongMask(e, impl, w)
    ensures RowsStock(impl, w, cache, out, w.m.batch.Count())
  {
    hide Work.Valid, WrongMask, ForwardRow, Work.Stock;
    forall i: nat, t: nat | InRequest(w, i, t) ensures out[w.RowIndex(i, t)] == w.Stock(impl, cache, i, t) {
      AgreesIf(e, impl, w, inRange, cache, i, t);
    }
  }

  // ---- layers that share a cache ----

  ghost function LayerCache(sharing: bool, e: Env, impl: Impl, w: Work, cache: seq<KV>): (r: seq<KV>)
    requires w.Valid() && |cache| == w.blocks * w.m.batch.bs
    ensures |r| == |cache|
  {
    if w.tokens.Some? && (!sharing || Reached(e, impl, w)) then w.Written(cache) else cache
  }

  /** What the stock path alone would leave. */
  ghost function StockCache(sharing: bool, w: Work, cache: seq<KV>): (r: seq<KV>)
    requires w.Valid() && |cache| == w.blocks * w.m.batch.bs
    ensures |r| == |cache|
  {
    if w.tokens.Some? && !sharing then w.Written(cache) else cache
  }

  function WithTokens(w: Work, tokens: seq<KV>): Work {
    w.(tokens := Some(tokens))
  }

  ghost predicate CacheKept(sharing: bool, e: Env, impl: Impl, w: Work, tokens: seq<KV>, cache: seq<KV>)
    requires w.Valid()
  {
    && |tokens| == |w.q| && |cache| == w.blocks * w.m.batch.bs ==>
      LayerCache(sharing, e, impl, WithTokens(w, tokens), cache)
      == StockCache(sharing, WithTokens(w, tokens), cache)
  }

  /** With keys and values at hand, the cache ends as the stock path leaves it, whatever they are and whatever
      it held, exactly when the layer writes its own cache first, or no leg gets as far as its write, or no
      token of the step has a slot. */
  lemma {:induction false} LayerCacheIsStock(sharing: bool, e: Env, impl: Impl, w: Work)
    requires w.Valid()
    ensures (forall tokens, cache :: CacheKept(sharing, e, impl, w, tokens, cache))
            <==> !sharing || !Reached(e, impl, w) || forall t :: 0 <= t < |w.m.batch.slots| ==> w.m.batch.slots[t] < 0
  {
    hide Reached, Work.Valid;
    ValidSlots(w);
    var slots, size := w.m.batch.slots, w.blocks * w.m.batch.bs;
    var unslotted := forall t :: 0 <= t < |slots| ==> slots[t] < 0;
    if !sharing || !Reached(e, impl, w) || unslotted {
      forall tokens, cache ensures CacheKept(sharing, e, impl, w, tokens, cache) {
        if |tokens| == |w.q| && |cache| == size {
          TokensApart(e, impl, w, tokens);
          if unslotted {
            NothingWritten(cache, tokens, slots);
          }
        }
      }
    } else {
      var u :| 0 <= u < |slots| && slots[u] >= 0;
      var tokens, cache := Ones(|w.q|, 1.0), Ones(size, 0.0);
      TokensApart(e, impl, w, tokens);
      SlotChanges(cache, tokens, slots, u);
      assert !CacheKept(sharing, e, impl, w, tokens, cache);
    }
  }

  function Ones(n: nat, x: real): (r: seq<KV>)
    ensures |r| == n && forall i :: 0 <= i < n ==> r[i] == KV([x], [x])
  {
    seq(n, _ => KV([x], [x]))
  }

  lemma {:induction false} SlotChanges(cache: seq<KV>, tokens: seq<KV>, slots: seq<int>, u: nat)
    requires |slots| <= |tokens| && forall t :: 0 <= t < |slots| ==> slots[t] < |cache|
    requires u < |slots| && slots[u] >= 0 && tokens == Ones(|tokens|, 1.0) && cache == Ones(|cache|, 0.0)
    ensures Write(cache, tokens, slots) != cache
  {
    WriteAt(cache, tokens, slots, slots[u]);
    assert KV([1.0], [1.0]).k[0] != KV([0.0], [0.0]).k[0];
  }

  lemma ValidSlots(w: Work)
    requires w.Valid()
    ensures |w.m.batch.slots| <= |w.q|
    ensures forall t :: 0 <= t < |w.m.batch.slots| ==> w.m.batch.slots[t] < w.blocks * w.m.batch.bs
  {
  }

  lemma NothingWritten(cache: seq<KV>, tokens: seq<KV>, slots: seq<int>)
    requires |slots| <= |tokens| && forall t :: 0 <= t < |slots| ==> slots[t] < 0
    ensures Write(cache, tokens, slots) == cache
  {
    WriteInvisible(cache, tokens, slots);
  }

  /** What is written has no say in which leg runs. */
  lemma TokensApart(e: Env, impl: Impl, w: Work, tokens: seq<KV>)
    requires w.Valid() && |tokens| == |w.q|
    ensures WithTokens(w, tokens).Valid()
    ensures Reached(e, impl, WithTokens(w, tokens)) == Reached(e, impl, w)
    ensures w.tokens.Some? ==> WrongMask(e, impl, WithTokens(w, tokens)) == WrongMask(e, impl, w)
  {
  }

  // ---- requests ----

  /** Request i's tokens after the step are its old context and its new tokens. */
  ghost predicate Extended(w: Work, before: seq<KV>, after: seq<KV>, i: nat)
    requires w.Valid() && w.tokens.Some? && |before| == |after| == w.blocks * w.m.batch.bs && i < w.m.batch.Count()
  {
    && 0 <= Ctx(w.m.batch, i) <= w.m.batch.lens[i] && 0 <= w.m.batch.cu[i] <= w.m.batch.cu[i + 1] <= |w.tokens.value|
    && Tokens(after, w.m.batch, w.blocks, i)
       == Tokens(before, w.m.batch, w.blocks, i)[..Ctx(w.m.batch, i)]
          + w.tokens.value[w.m.batch.cu[i]..w.m.batch.cu[i + 1]]
  }

  lemma {:induction false} ExtendedBy(w: Work, before: seq<KV>, i: nat)
    requires w.Valid() && w.tokens.Some? && |before| == w.blocks * w.m.batch.bs && i < w.m.batch.Count()
    ensures Extended(w, before, w.Written(before), i)
  {
    CacheRefinesSequences(before, w.tokens.value, w.m.batch, w.blocks, i);
  }

  lemma {:induction false} RangeIs(w: Work, cache: seq<KV>, inRange: (seq<Row>, seq<KV>) -> bool, i: nat)
    requires w.Valid() && |cache| == w.blocks * w.m.batch.bs && i < w.m.batch.Count()
    ensures |w.m.batch.cu| == w.m.batch.Count() + 1 && 0 <= w.m.batch.cu[i] <= w.m.batch.cu[i + 1] <= |w.q|
    ensures OutOfRange(w, cache, inRange, i) <==>
      w.m.batch.cu[i] < w.m.batch.cu[i + 1]
      && !inRange(w.q[w.m.batch.cu[i]..w.m.batch.cu[i + 1]], Tokens(cache, w.m.batch, w.blocks, i))
  {
    RequestBounds(w, i);
  }

  lemma RangeEnds(w: Work, cache: seq<KV>, inRange: (seq<Row>, seq<KV>) -> bool)
    requires w.Valid() && |cache| == w.blocks * w.m.batch.bs
    ensures forall i: nat :: OutOfRange(w, cache, inRange, i) ==> i < w.m.batch.Count()
  {
  }

  lemma {:induction false} SliceInside(w: Work, cache: seq<KV>, i: nat, causal: bool, o: seq<Row>)
    requires w.Valid() && |cache| == w.blocks * w.m.batch.bs && i < w.m.batch.Count()
    requires RequestMasked(w, cache, i, causal, o)
    ensures |w.m.batch.cu| == w.m.batch.Count() + 1
    ensures 0 <= w.m.batch.cu[i] && w.m.batch.cu[i + 1] == w.m.batch.cu[i] + |o|
    ensures w.m.batch.cu[i + 1] <= w.m.batch.cu[w.m.batch.Count()] <= |w.q|
  {
    assert w.m.batch.RequestFits(i, w.blocks);
    Ordered(w.m.batch, w.blocks, i + 1, w.m.batch.Count());
  }

  /** Bottom-right aligned prefill of a request's queries over its gathered tokens is the row under that mask. */
  lemma PrefillIsExact(w: Work, cache: seq<KV>, i: nat, causal: bool, j: nat)
    requires w.Valid() && |cache| == w.blocks * w.m.batch.bs && i < w.m.batch.Count()
    requires 0 <= w.m.batch.cu[i] <= w.m.batch.cu[i + 1] <= |w.q|
    requires 0 <= w.m.batch.cu[i + 1] - w.m.batch.cu[i] <= w.m.batch.lens[i]
    requires j < w.m.batch.cu[i + 1] - w.m.batch.cu[i]
    ensures InRequest(w, i, w.m.batch.cu[i] + j)
    ensures var qs := w.q[w.m.batch.cu[i]..w.m.batch.cu[i + 1]];
      FiPrefill(w.attn, qs, Tokens(cache, w.m.batch, w.blocks, i), causal)[j]
      == w.Masked(cache, i, w.m.batch.cu[i] + j, causal)
  {
    var kvs := Tokens(cache, w.m.batch, w.blocks, i);
    if !causal {
      assert kvs[..|kvs|] == kvs;
    }
  }

  /** A request without context: its own new tokens are what the cache holds for it. */
  lemma {:induction false} FreshIsGathered(w: Work, cache: seq<KV>, i: nat)
    requires w.Valid() && |cache| == w.blocks * w.m.batch.bs && i < w.m.batch.Count()
    requires w.tokens.Some? && w.Written(cache) == cache
    ensures 0 <= w.m.batch.cu[i] <= w.m.batch.cu[i + 1] <= |w.tokens.value|
    ensures 0 <= Ctx(w.m.batch, i) <= w.m.batch.lens[i]
    ensures Ctx(w.m.batch, i) == 0 ==>
      w.tokens.value[w.m.batch.cu[i]..w.m.batch.cu[i + 1]] == Tokens(cache, w.m.batch, w.blocks, i)
  {
    CacheRefinesSequences(cache, w.tokens.value, w.m.batch, w.blocks, i);
  }

  lemma NoRows(w: Work, cache: seq<KV>, out: seq<Row>, causal: bool)
    requires w.Valid() && |cache| == w.blocks * w.m.batch.bs && |out| == |w.q|
    ensures RowsMasked(w, cache, out, causal, 0)
  {
  }

  lemma NoStockRows(impl: Impl, w: Work, cache: seq<KV>, out: seq<Row>)
    requires w.Valid() && |cache| == w.blocks * w.m.batch.bs && |out| == |w.q|
    ensures RowsStock(impl, w, cache, out, 0)
  {
  }

  lemma {:induction false} RequestBounds(w: Work, i: nat)
    requires w.Valid() && i < w.m.batch.Count()
    ensures |w.m.batch.cu| == w.m.batch.Count() + 1 && w.m.batch.Valid(w.blocks)
    ensures 0 <= w.m.batch.cu[i] <= w.m.batch.cu[i + 1] <= w.m.batch.cu[w.m.batch.Count()] <= |w.q|
    ensures w.m.batch.cu[i + 1] - w.m.batch.cu[i] <= w.m.batch.lens[i]
  {
    assert w.m.batch.RequestFits(i, w.blocks);
    Ordered(w.m.batch, w.blocks, i + 1, w.m.batch.Count());
  }

  lemma {:induction false} PrefillRequest(w: Work, cache: seq<KV>, i: nat, causal: bool)
    requires w.Valid() && |cache| == w.blocks * w.m.batch.bs && i < w.m.batch.Count()
    requires 0 <= w.m.batch.cu[i] <= w.m.batch.cu[i + 1] <= |w.q|
    requires 0 <= w.m.batch.cu[i + 1] - w.m.batch.cu[i] <= w.m.batch.lens[i]
    ensures var qs := w.q[w.m.batch.cu[i]..w.m.batch.cu[i + 1]];
      RequestMasked(w, cache, i, causal, FiPrefill(w.attn, qs, Tokens(cache, w.m.batch, w.blocks, i), causal))
  {
    var qs := w.q[w.m.batch.cu[i]..w.m.batch.cu[i + 1]];
    var o := FiPrefill(w.attn, qs, Tokens(cache, w.m.batch, w.blocks, i), causal);
    forall t: nat | InRequest(w, i, t) ensures o[t - w.m.batch.cu[i]] == w.Masked(cache, i, t, causal) {
      PrefillIsExact(w, cache, i, causal, t - w.m.batch.cu[i]);
    }
  }

  /** A single query is the last position, so it sees everything either way. */
  lemma SingleRow(attn: Kernel, qs: seq<Row>, kvs: seq<KV>, causal: bool)
    requires |qs| <= |kvs|
    ensures |qs| == 1 ==> FiPrefill(attn, qs, kvs, causal) == [attn(qs[0], kvs)]
  {
    assert kvs[..|kvs|] == kvs;
  }

  lemma EmptyRequest(w: Work, cache: seq<KV>, out: seq<Row>, causal: bool, i: nat)
    requires w.Valid() && |cache| == w.blocks * w.m.batch.bs && |out| == |w.q|
    requires i < w.m.batch.Count() && w.m.batch.cu[i + 1] <= w.m.batch.cu[i] && RowsMasked(w, cache, out, causal, i)
    ensures RowsMasked(w, cache, out, causal, i + 1)
  {
  }

  lemma {:induction false} QueriesBelow(w: Work, i: nat, n: nat)
    requires w.Valid() && i <= n <= w.m.batch.Count()
    ensures w.m.batch.cu[n] - w.m.batch.cu[i] <= (n - i) * w.m.maxQueryLen
    decreases n - i
  {
    if i < n {
      assert w.m.batch.RequestFits(i, w.blocks);
      QueriesBelow(w, i + 1, n);
      assert (n - i) * w.m.maxQueryLen == (n - (i + 1)) * w.m.maxQueryLen + w.m.maxQueryLen;
    }
  }

  /** When the token count is requests times the longest query, every request has that many queries, so
      request i's rows start at i times it. */
  lemma UniformRows(w: Work, i: nat)
    requires w.Valid() && i < w.m.batch.Count()
    requires w.m.NumActual() == w.m.batch.Count() * w.m.maxQueryLen
    ensures w.m.batch.cu[i] == i * w.m.maxQueryLen
    ensures w.m.batch.cu[i + 1] == i * w.m.maxQueryLen + w.m.maxQueryLen
  {
    var n := w.m.batch.Count();
    UniformStart(w, i);
    UniformStart(w, i + 1);
    assert (i + 1) * w.m.maxQueryLen == i * w.m.maxQueryLen + w.m.maxQueryLen;
  }

  lemma UniformStart(w: Work, i: nat)
    requires w.Valid() && i <= w.m.batch.Count()
    requires w.m.NumActual() == w.m.batch.Count() * w.m.maxQueryLen
    ensures w.m.batch.cu[i] == i * w.m.maxQueryLen
  {
    var n := w.m.batch.Count();
    QueriesBelow(w, 0, i);
    QueriesBelow(w, i, n);
    assert n * w.m.maxQueryLen == i * w.m.maxQueryLen + (n - i) * w.m.maxQueryLen;
  }
}
