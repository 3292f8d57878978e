/** The paged KV cache as the legs use it: tokens are written through a slot mapping and read back by
    gathering a request's blocks. */
module PagedCache {
  import opened IndexArith

  type Row = seq<real>

  /** One token's key and value rows. */
  datatype KV = KV(k: Row, v: Row)

  // ---- writing ----

  /** The cache after writing tokens[t] to slot slots[t], skipping padded tokens (negative slots). */
  function Write(cache: seq<KV>, tokens: seq<KV>, slots: seq<int>): (r: seq<KV>)
    requires |slots| <= |tokens| && forall t :: 0 <= t < |slots| ==> slots[t] < |cache|
    ensures |r| == |cache|
  {
    if slots == [] then cache
    else
      var n := |slots| - 1;
      var before := Write(cache, tokens, slots[..n]);
      if slots[n] < 0 then before else before[slots[n] := tokens[n]]
  }

  /** The last token written to slot x, or -1. */
  function Writer(slots: seq<int>, x: nat): (t: int)
    ensures -1 <= t < |slots| && (t >= 0 ==> slots[t] == x)
    ensures t < 0 ==> forall u :: 0 <= u < |slots| ==> slots[u] != x
  {
    if slots == [] then -1
    else if slots[|slots| - 1] == x then |slots| - 1
    else
      assert slots[..|slots| - 1] + [slots[|slots| - 1]] == slots;
      Writer(slots[..|slots| - 1], x)
  }

  lemma {:induction false} WriteAt(cache: seq<KV>, tokens: seq<KV>, slots: seq<int>, x: nat)
    requires |slots| <= |tokens| && forall t :: 0 <= t < |slots| ==> slots[t] < |cache|
    requires x < |cache|
    ensures Write(cache, tokens, slots)[x] == if Writer(slots, x) < 0 then cache[x] else tokens[Writer(slots, x)]
  {
    if slots != [] {
      WriteAt(cache, tokens, slots[..|slots| - 1], x);
    }
  }

  /** Writing the same tokens again changes nothing, whatever the slot mapping. */
  lemma {:induction false} WriteTwice(cache: seq<KV>, tokens: seq<KV>, slots: seq<int>)
    requires |slots| <= |tokens| && forall t :: 0 <= t < |slots| ==> slots[t] < |cache|
    ensures Write(Write(cache, tokens, slots), tokens, slots) == Write(cache, tokens, slots)
  {
    var once := Write(cache, tokens, slots);
    var twice := Write(once, tokens, slots);
    forall x | 0 <= x < |cache| ensures twice[x] == once[x] {
      WriteAt(cache, tokens, slots, x);
      WriteAt(once, tokens, slots, x);
    }
  }

  /** A write is invisible exactly when every mapped slot already holds its (last) token, as it does after
      the layer's own cache update. */
  lemma {:induction false} WriteInvisible(cache: seq<KV>, tokens: seq<KV>, slots: seq<int>)
    requires |slots| <= |tokens| && forall t :: 0 <= t < |slots| ==> slots[t] < |cache|
    ensures Write(cache, tokens, slots) == cache
            <==> forall t :: 0 <= t < |slots| && slots[t] >= 0 && Writer(slots, slots[t]) == t ==>
                   cache[slots[t]] == tokens[t]
  {
    forall x | 0 <= x < |cache|
      ensures Write(cache, tokens, slots)[x] == if Writer(slots, x) < 0 then cache[x] else tokens[Writer(slots, x)]
    {
      WriteAt(cache, tokens, slots, x);
    }
  }

  /** `reshape_and_cache_flash` in place. */
  method ReshapeAndCache(cache: array<KV>, tokens: seq<KV>, slots: seq<int>)
    requires |slots| <= |tokens| && forall t :: 0 <= t < |slots| ==> slots[t] < cache.Length
    modifies cache
    ensures cache[..] == Write(old(cache[..]), tokens, slots)
  {
    for t := 0 to |slots|
      invariant cache[..] == Write(old(cache[..]), tokens, slots[..t])
    {
      assert slots[..t + 1][..t] == slots[..t];
      if slots[t] >= 0 {
        cache[slots[t]] := tokens[t];
      }
    }
    assert slots[..|slots|] == slots;
  }

  // ---- reading ----

  /** A batch: query rows cu[i]..cu[i+1] are the last tokens of request i, whose lens[i] tokens live
      in the blocks of table[i]. */
  datatype Batch = Batch(cu: seq<int>, lens: seq<nat>, table: seq<seq<nat>>, slots: seq<int>, bs: nat) {

    function Count(): nat {
      |lens|
    }

    ghost predicate RequestFits(i: nat, blocks: nat)
      requires bs > 0 && |cu| == |lens| + 1 && |table| == |lens| && i < |lens|
    {
      && 0 <= cu[i] <= cu[i + 1] && 0 <= cu[i + 1] - cu[i] <= lens[i]
      && CeilDiv(lens[i], bs) <= |table[i]|
      && forall p :: 0 <= p < |table[i]| ==> table[i][p] < blocks
    }

    ghost predicate Valid(blocks: nat) {
      && bs > 0 && |cu| == |lens| + 1 && |table| == |lens| && cu[0] == 0
      && forall i :: 0 <= i < |lens| ==> RequestFits(i, blocks)
    }
  }

  lemma PageOf(p: nat, len: nat, bs: nat)
    requires bs > 0 && p < len
    ensures p / bs < CeilDiv(len, bs)
  {
    CeilDivBounds(len, bs);
    DivBelow(p, bs, CeilDiv(len, bs));
  }

  /** Physical slot of token p of request i. */
  function SlotOf(b: Batch, blocks: nat, i: nat, p: nat): (slot: nat)
    requires b.Valid(blocks) && i < b.Count() && p < b.lens[i]
    ensures slot < blocks * b.bs
  {
    assert b.RequestFits(i, blocks);
    PageOf(p, b.lens[i], b.bs);
    MulMono(b.table[i][p / b.bs] + 1, blocks, b.bs);
    b.table[i][p / b.bs] * b.bs + p % b.bs
  }

  /** Physical slot of token p of a list of blocks. */
  function InBlocks(blk: seq<nat>, bs: nat, p: nat, size: nat): (slot: nat)
    requires bs > 0 && p < |blk| * bs && forall x :: 0 <= x < |blk| ==> (blk[x] + 1) * bs <= size
    ensures slot < size
  {
    DivBelow(p, bs, |blk|);
    assert (blk[p / bs] + 1) * bs == blk[p / bs] * bs + bs;
    blk[p / bs] * bs + p % bs
  }

  /** Token p of the blocks gathered one after the other. */
  function GatheredAt(cache: seq<KV>, blk: seq<nat>, bs: nat, p: nat): KV
    requires bs > 0 && p < |blk| * bs && forall x :: 0 <= x < |blk| ==> (blk[x] + 1) * bs <= |cache|
  {
    cache[InBlocks(blk, bs, p, |cache|)]
  }

  /** `_gather_one`: select the blocks, lay them end to end, cut to seq_len. */
  function GatherOne(cache: seq<KV>, blk: seq<nat>, bs: nat, seqLen: nat): (r: seq<KV>)
    requires bs > 0 && seqLen <= |blk| * bs && forall x :: 0 <= x < |blk| ==> (blk[x] + 1) * bs <= |cache|
    ensures |r| == seqLen && forall p :: 0 <= p < seqLen ==> r[p] == GatheredAt(cache, blk, bs, p)
  {
    var r := seq(seqLen, p requires 0 <= p < seqLen => GatheredAt(cache, blk, bs, p));
    assert forall p :: 0 <= p < seqLen ==> r[p] == GatheredAt(cache, blk, bs, p);
    r
  }

  lemma {:induction false} BlocksReach(b: Batch, blocks: nat, i: nat)
    requires b.Valid(blocks) && i < b.Count()
    ensures var n := CeilDiv(b.lens[i], b.bs);
      && n <= |b.table[i]| && b.lens[i] <= n * b.bs
      && forall x :: 0 <= x < n ==> (b.table[i][x] + 1) * b.bs <= blocks * b.bs
  {
    assert b.RequestFits(i, blocks);
    CeilDivBounds(b.lens[i], b.bs);
    forall x | 0 <= x < CeilDiv(b.lens[i], b.bs) ensures (b.table[i][x] + 1) * b.bs <= blocks * b.bs {
      MulMono(b.table[i][x] + 1, blocks, b.bs);
    }
  }

  /** The tokens of request i, as the legs gather them. */
  function Tokens(cache: seq<KV>, b: Batch, blocks: nat, i: nat): (r: seq<KV>)
    requires b.Valid(blocks) && i < b.Count() && |cache| == blocks * b.bs
    ensures |r| == b.lens[i]
  {
    BlocksReach(b, blocks, i);
    GatherOne(cache, b.table[i][..CeilDiv(b.lens[i], b.bs)], b.bs, b.lens[i])
  }

  lemma TokenAt(cache: seq<KV>, b: Batch, blocks: nat, i: nat, p: nat)
    requires b.Valid(blocks) && i < b.Count() && |cache| == blocks * b.bs && p < b.lens[i]
    ensures Tokens(cache, b, blocks, i)[p] == cache[SlotOf(b, blocks, i, p)]
  {
    hide CeilDiv, Batch.RequestFits;
    BlocksReach(b, blocks, i);
    PageOf(p, b.lens[i], b.bs);
    assert b.table[i][..CeilDiv(b.lens[i], b.bs)][p / b.bs] == b.table[i][p / b.bs];
  }

  // ---- the cache refines per-request sequences ----

  function Ctx(b: Batch, i: nat): int
    requires |b.cu| == |b.lens| + 1 && i < b.Count()
  {
    b.lens[i] + b.cu[i] - b.cu[i + 1]
  }

  /** New token j of request i goes to the slot of logical position ctx + j. */
  ghost predicate Mapped(b: Batch, blocks: nat, i: nat, j: nat)
    requires b.Valid(blocks) && i < b.Count() && b.cu[i] + j < b.cu[i + 1]
  {
    assert b.RequestFits(i, blocks);
    b.cu[i] + j < |b.slots| && b.slots[b.cu[i] + j] == SlotOf(b, blocks, i, Ctx(b, i) + j)
  }

  /** Only new tokens are mapped, each to its own logical position; and the slot of a new token is no
      other token's - older tokens may share blocks (a cached prefix), written ones may not. */
  ghost predicate Consistent(b: Batch, blocks: nat)
    requires b.Valid(blocks)
  {
    && (forall i, j | 0 <= i < b.Count() && 0 <= j && b.cu[i] + j < b.cu[i + 1] :: Mapped(b, blocks, i, j))
    && (forall t :: 0 <= t < |b.slots| && b.slots[t] >= 0 ==> t < b.cu[b.Count()])
    && (forall i, p, i', p' |
          && 0 <= i < b.Count() && 0 <= i' < b.Count()
          && 0 <= p < b.lens[i] && 0 <= p' < b.lens[i'] && Ctx(b, i') <= p' ::
          SlotOf(b, blocks, i, p) == SlotOf(b, blocks, i', p') ==> i == i' && p == p')
  }

  /** Token t of the batch belongs to some request. */
  lemma {:induction false} RequestOf(b: Batch, blocks: nat, t: nat, n: nat) returns (i: nat)
    requires b.Valid(blocks) && n <= b.Count() && t < b.cu[n]
    ensures i < n && b.cu[i] <= t < b.cu[i + 1]
  {
    assert b.RequestFits(n - 1, blocks);
    if b.cu[n - 1] <= t {
      i := n - 1;
    } else {
      i := RequestOf(b, blocks, t, n - 1);
    }
  }

  lemma {:induction false} Ordered(b: Batch, blocks: nat, i: nat, n: nat)
    requires b.Valid(blocks) && i <= n <= b.Count()
    ensures b.cu[i] <= b.cu[n]
    decreases n - i
  {
    if i < n {
      assert b.RequestFits(i, blocks);
      Ordered(b, blocks, i + 1, n);
    }
  }

  /** The last writer of a request's slot, if any, is the slot's own new token. */
  lemma {:induction false} WriterOf(b: Batch, blocks: nat, i: nat, p: nat)
    requires b.Valid(blocks) && Consistent(b, blocks) && i < b.Count() && p < b.lens[i]
    ensures var w := Writer(b.slots, SlotOf(b, blocks, i, p));
      if p < Ctx(b, i) then w < 0 else w == b.cu[i] + (p - Ctx(b, i))
  {
    hide SlotOf;
    var x := SlotOf(b, blocks, i, p);
    var w := Writer(b.slots, x);
    assert b.RequestFits(i, blocks);
    if Ctx(b, i) <= p {
      assert Mapped(b, blocks, i, p - Ctx(b, i));
    }
    if w >= 0 {
      var i' := RequestOf(b, blocks, w, b.Count());
      assert b.RequestFits(i', blocks);
      assert Mapped(b, blocks, i', w - b.cu[i']);
    }
  }

  /** What the write leaves in the slot of token p of request i. */
  lemma {:induction false} SlotAfter(cache: seq<KV>, tokens: seq<KV>, b: Batch, blocks: nat, i: nat, p: nat)
    requires b.Valid(blocks) && Consistent(b, blocks) && |cache| == blocks * b.bs
    requires |b.slots| <= |tokens| && forall t :: 0 <= t < |b.slots| ==> b.slots[t] < |cache|
    requires i < b.Count() && p < b.lens[i]
    ensures Ctx(b, i) <= p ==> 0 <= b.cu[i] <= b.cu[i] + (p - Ctx(b, i)) < |tokens|
    ensures Write(cache, tokens, b.slots)[SlotOf(b, blocks, i, p)]
            == if p < Ctx(b, i) then cache[SlotOf(b, blocks, i, p)] else tokens[b.cu[i] + (p - Ctx(b, i))]
  {
    hide SlotOf, Write, Consistent;
    assert b.RequestFits(i, blocks);
    WriterOf(b, blocks, i, p);
    WriteAt(cache, tokens, b.slots, SlotOf(b, blocks, i, p));
  }

  /** After the write, gathering a request yields its old context followed by its new tokens; so for
      a request without context the new tokens themselves are what a gather would return. */
  lemma {:induction false} CacheRefinesSequences(cache: seq<KV>, tokens: seq<KV>, b: Batch, blocks: nat, i: nat)
    requires b.Valid(blocks) && Consistent(b, blocks) && |cache| == blocks * b.bs
    requires |b.slots| <= |tokens| && forall t :: 0 <= t < |b.slots| ==> b.slots[t] < |cache|
    requires i < b.Count()
    ensures 0 <= Ctx(b, i) <= b.lens[i] && 0 <= b.cu[i] <= b.cu[i + 1] <= |tokens|
    ensures Tokens(Write(cache, tokens, b.slots), b, blocks, i)
            == Tokens(cache, b, blocks, i)[..Ctx(b, i)] + tokens[b.cu[i]..b.cu[i + 1]]
  {
    assert b.RequestFits(i, blocks);
    if b.cu[i] < b.cu[i + 1] {
      assert Mapped(b, blocks, i, b.cu[i + 1] - b.cu[i] - 1);
    } else {
      BoundedByTokens(tokens, b, blocks, i);
    }
    var after, before := Tokens(Write(cache, tokens, b.slots), b, blocks, i), Tokens(cache, b, blocks, i);
    var expected := before[..Ctx(b, i)] + tokens[b.cu[i]..b.cu[i + 1]];
    forall p | 0 <= p < b.lens[i] ensures after[p] == expected[p] {
      TokenAt(cache, b, blocks, i, p);
      TokenAt(Write(cache, tokens, b.slots), b, blocks, i, p);
      SlotAfter(cache, tokens, b, blocks, i, p);
    }
  }

  lemma BoundedByTokens(tokens: seq<KV>, b: Batch, blocks: nat, i: nat)
    requires b.Valid(blocks) && Consistent(b, blocks) && i < b.Count() && |b.slots| <= |tokens|
    ensures b.cu[i] <= |tokens|
  {
    if b.cu[i] > 0 {
      var r := RequestOf(b, blocks, b.cu[i] - 1, i);
      assert Mapped(b, blocks, r, b.cu[i] - 1 - b.cu[r]);
    }
  }

  /** Block x of the cache holds one of the step's new tokens. */
  ghost predicate HoldsNew(b: Batch, blocks: nat, x: nat)
    requires b.Valid(blocks)
  {
    exists i, p :: 0 <= i < b.Count() && 0 <= p < b.lens[i] && Ctx(b, i) <= p && SlotOf(b, blocks, i, p) / b.bs == x
  }

  /** Whatever is written goes into a block that holds a new token. */
  lemma {:induction false} SlotInside(b: Batch, blocks: nat, t: nat)
    requires b.Valid(blocks) && Consistent(b, blocks) && t < |b.slots| && b.slots[t] >= 0
    ensures HoldsNew(b, blocks, b.slots[t] / b.bs)
  {
    hide SlotOf;
    var i := RequestOf(b, blocks, t, b.Count());
    assert b.RequestFits(i, blocks);
    assert Mapped(b, blocks, i, t - b.cu[i]);
  }

  lemma BlockOf(blk: seq<nat>, bs: nat, p: nat, size: nat)
    requires bs > 0 && p < |blk| * bs && forall x :: 0 <= x < |blk| ==> (blk[x] + 1) * bs <= size
    ensures InBlocks(blk, bs, p, size) / bs in blk
  {
    DivBelow(p, bs, |blk|);
    DivIs(bs, InBlocks(blk, bs, p, size), blk[p / bs], p % bs);
  }

  /** A list of blocks - another request's, or a shared prefix - of which none holds a new token of the step
      keeps all its tokens. */
  lemma {:induction false} OthersUntouched(cache: seq<KV>, tokens: seq<KV>, b: Batch, blocks: nat, blk: seq<nat>,
                                           len: nat)
    requires b.Valid(blocks) && Consistent(b, blocks) && |cache| == blocks * b.bs
    requires |b.slots| <= |tokens| && forall t :: 0 <= t < |b.slots| ==> b.slots[t] < |cache|
    requires len <= |blk| * b.bs && forall x :: 0 <= x < |blk| ==> (blk[x] + 1) * b.bs <= |cache|
    requires forall x :: x in blk ==> !HoldsNew(b, blocks, x)
    ensures GatherOne(Write(cache, tokens, b.slots), blk, b.bs, len) == GatherOne(cache, blk, b.bs, len)
  {
    hide InBlocks, Write, HoldsNew, Consistent;
    forall p | 0 <= p < len
      ensures GatheredAt(Write(cache, tokens, b.slots), blk, b.bs, p) == GatheredAt(cache, blk, b.bs, p)
    {
      var slot := InBlocks(blk, b.bs, p, |cache|);
      BlockOf(blk, b.bs, p, |cache|);
      WriteAt(cache, tokens, b.slots, slot);
      if Writer(b.slots, slot) >= 0 {
        SlotInside(b, blocks, Writer(b.slots, slot));
      }
    }
  }
}
