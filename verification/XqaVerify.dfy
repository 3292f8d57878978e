/** The XQA verify leg's build-before-capture protocol: a module cache and a buffer cache that only
    eager calls may fill, a builder that prewarms them for every capture size, and a launch that
    declines a capturing call for anything not yet built. */
module XqaVerify {
  import opened IndexArith
  import opened Digits
  import opened MaskPack

  datatype DType = Float16 | BFloat16 | OtherType

  datatype ModKey = ModKey(input: DType, kv: DType, page: nat, headDim: nat, grp: nat, qSeqLen: nat)

  datatype BufKey = BufKey(batch: nat, qSeqLen: nat, hkv: nat, dev: nat)

  /** Semaphore count, sequence-length slots, and the mask's halfwords by request, row and column. */
  datatype Bufs = Bufs(sems: nat, lens: nat, mask: seq<seq<seq<nat>>>)

  const HEAD_DIMS: set<nat> := {64, 128, 256}
  const PAGE_SIZES: set<nat> := {16, 32, 64, 128, 256}

  function MaskRow(qSeqLen: nat, q: nat): (row: seq<nat>)
    ensures |row| == 2 * WordsPerRow(qSeqLen)
    ensures forall h :: 0 <= h < |row| ==> row[h] == Half(qSeqLen, q, h)
  {
    var n := 2 * WordsPerRow(qSeqLen);
    var row := seq(n, h requires 0 <= h < n => Half(qSeqLen, q, h));
    assert forall h :: 0 <= h < n ==> row[h] == Half(qSeqLen, q, h);
    row
  }

  /** What `_buffers` allocates for a key: room for every kv head's sequences, and the same causal
      mask for every request. */
  function BufsFor(key: BufKey): (b: Bufs)
    ensures b.lens == key.batch && |b.mask| == key.batch
    ensures b.sems >= 2 * key.hkv * key.batch + 4
  {
    var nbSeq := key.hkv * key.batch;
    Bufs(
      (nbSeq + 1) / 2 * 2 + 2 + nbSeq + 2,
      key.batch,
      seq(key.batch, _ => seq(key.qSeqLen, q => if q < 0 then [] else MaskRow(key.qSeqLen, q))))
  }

  /** One mask row per query of every request, 16 keys to a halfword: bit k is set iff key k is no later than the
      query - k counts the last positions, as the queries do - and padding bits are clear. */
  ghost predicate CausalMask(mask: seq<seq<seq<nat>>>, reqs: nat, queries: nat) {
    && |mask| == reqs
    && forall r, q :: 0 <= r < reqs && 0 <= q < queries ==> |mask[r]| == queries && CausalRow(mask[r][q], q, queries)
  }

  ghost predicate CausalRow(row: seq<nat>, q: nat, queries: nat) {
    && 16 * |row| >= queries
    && forall k: nat :: k < 16 * |row| ==> (Digit(row[k / 16], 2, k % 16) == 1 <==> k <= q)
  }

  lemma {:induction false} MaskIsCausal(key: BufKey)
    ensures CausalMask(BufsFor(key).mask, key.batch, key.qSeqLen)
  {
    var mask := BufsFor(key).mask;
    forall r, q | 0 <= r < key.batch && 0 <= q < key.qSeqLen
      ensures |mask[r]| == key.qSeqLen && CausalRow(mask[r][q], q, key.qSeqLen)
    {
      RowIsCausal(key.qSeqLen, q);
      assert mask[r][q] == MaskRow(key.qSeqLen, q);
    }
  }

  lemma {:induction false} RowIsCausal(qSeqLen: nat, q: nat)
    requires q < qSeqLen
    ensures CausalRow(MaskRow(qSeqLen, q), q, qSeqLen)
  {
    hide Half;
    var row := MaskRow(qSeqLen, q);
    forall k: nat | k < 16 * |row| ensures Digit(row[k / 16], 2, k % 16) == 1 <==> k <= q {
      MaskBit(qSeqLen, q, k);
      assert row[k / 16] == Half(qSeqLen, q, k / 16);
    }
  }

  /** What a call asks for. */
  datatype Call = Call(
    numReqs: nat, maxQueryLen: int, numActual: int,
    headDim: nat, heads: nat, hkv: nat, input: DType, kv: DType, page: nat, dev: nat)
  {
    predicate Uniform() {
      maxQueryLen > 1 && numActual == numReqs * maxQueryLen
    }

    predicate Supported() {
      headDim in HEAD_DIMS && input != OtherType && page in PAGE_SIZES && hkv > 0
    }

    function Mod(): ModKey
      requires maxQueryLen > 1 && hkv > 0
    {
      ModKey(input, kv, page, headDim, heads / hkv, maxQueryLen)
    }

    function Buf(): BufKey
      requires maxQueryLen > 1
    {
      BufKey(numReqs, maxQueryLen, hkv, dev)
    }
  }

  datatype Result = NotVerify | Unsupported | NotPrewarmed | BuildFailed | Launched(bufs: Bufs)

  /** The module-level caches. */
  class Caches {
    var modules: set<ModKey>
    var bufs: map<BufKey, Bufs>

    ghost predicate Valid()
      reads this
    {
      forall k :: k in bufs ==> bufs[k] == BufsFor(k)
    }

    constructor ()
      ensures Valid() && modules == {} && bufs == map[]
    {
      modules, bufs := {}, map[];
    }

    /** `_module`: the cached module, or a build that may raise. */
    method Module(key: ModKey, buildFails: bool) returns (ok: bool)
      modifies this`modules
      ensures ok <==> key in old(modules) || !buildFails
      ensures modules == if ok then old(modules) + {key} else old(modules)
    {
      if key in modules {
        assert modules + {key} == modules;
        return true;
      }
      if buildFails {
        return false;
      }
      modules := modules + {key};
      return true;
    }

    /** `_buffers`: the cached buffers, or new ones. */
    method Buffers(key: BufKey) returns (b: Bufs)
      requires Valid()
      modifies this`bufs
      ensures Valid() && b == BufsFor(key)
      ensures bufs == old(bufs)[key := b]
      ensures key in old(bufs) ==> bufs == old(bufs)
    {
      if key in bufs {
        b := bufs[key];
        assert bufs[key := b] == bufs;
      } else {
        b := BufsFor(key);
        bufs := bufs[key := b];
      }
    }

    /** `prewarm`: the module and one set of buffers per request count. Returns false when the build
        raises, which skips the buffers too. */
    method Prewarm(key: ModKey, hkv: nat, dev: nat, counts: seq<nat>, buildFails: bool) returns (ok: bool)
      requires Valid()
      modifies this
      ensures Valid()
      ensures modules >= old(modules) && bufs.Keys >= old(bufs).Keys
      ensures ok <==> key.page !in PAGE_SIZES || key in old(modules) || !buildFails
      ensures modules == old(modules) + (if ok && key.page in PAGE_SIZES then {key} else {})
      ensures bufs.Keys
              == old(bufs).Keys
                 + (if ok && key.page in PAGE_SIZES then KeysFor(counts, key.qSeqLen, hkv, dev) else {})
    {
      if key.page !in PAGE_SIZES {
        return true;
      }
      ok := Module(key, buildFails);
      if !ok {
        return;
      }
      for i := 0 to |counts|
        invariant Valid() && modules == old(modules) + {key}
        invariant bufs.Keys == old(bufs).Keys + KeysFor(counts[..i], key.qSeqLen, hkv, dev)
      {
        assert counts[..i + 1] == counts[..i] + [counts[i]];
        var _ := Buffers(BufKey(counts[i], key.qSeqLen, hkv, dev));
      }
      assert counts[..|counts|] == counts;
    }

    /** `xqa_verify`'s decision and launch. While capturing it builds nothing; it declines for a missing
        module or buffer only while capturing, and only when one is missing. */
    method Verify(c: Call, capturing: bool, buildFails: bool) returns (r: Result)
      requires Valid()
      modifies this
      ensures Valid()
      ensures modules >= old(modules) && bufs.Keys >= old(bufs).Keys
      ensures capturing ==> modules == old(modules) && bufs == old(bufs)
      ensures r == NotVerify <==> !c.Uniform()
      ensures r == Unsupported <==> c.Uniform() && !c.Supported()
      ensures r == NotPrewarmed <==>
        c.Uniform() && c.Supported() && capturing && (c.Mod() !in old(modules) || c.Buf() !in old(bufs))
      ensures r == BuildFailed <==>
        c.Uniform() && c.Supported() && !capturing && c.Mod() !in old(modules) && buildFails
      ensures r.Launched? ==> r.bufs == BufsFor(c.Buf()) && c.Mod() in modules && c.Buf() in bufs
      ensures r.Launched? ==> CausalMask(r.bufs.mask, c.numReqs, c.maxQueryLen)
    {
      if !c.Uniform() {
        return NotVerify;
      }
      if !c.Supported() {
        return Unsupported;
      }
      if (c.Mod() !in modules || c.Buf() !in bufs) && capturing {
        return NotPrewarmed;
      }
      var ok := Module(c.Mod(), buildFails);
      if !ok {
        return BuildFailed;
      }
      var b := Buffers(c.Buf());
      MaskIsCausal(c.Buf());
      return Launched(b);
    }

    /** `_prewarm_xqa_verify`, run when the metadata builder is made. */
    method BuilderInit(cfg: Config, buildFails: bool) returns (ok: bool)
      requires Valid()
      modifies this
      ensures Valid() && (ok <==> cfg.WarmKeys() == {} || cfg.Mod() in old(modules) || !buildFails)
      ensures modules == old(modules) + (if ok && cfg.WarmKeys() != {} then {cfg.Mod()} else {})
      ensures bufs.Keys == old(bufs).Keys + (if ok then cfg.WarmKeys() else {})
    {
      if !cfg.Wanted() {
        return true;
      }
      var counts := Ladder(cfg.sizes, cfg.qSeqLen, cfg.maxNumSeqs);
      if counts == [] {
        return true;
      }
      assert KeysFor(counts, cfg.qSeqLen, cfg.hkv, cfg.dev) != {} by {
        assert BufKey(counts[0], cfg.qSeqLen, cfg.hkv, cfg.dev) in KeysFor(counts, cfg.qSeqLen, cfg.hkv, cfg.dev);
      }
      ok := Prewarm(cfg.Mod(), cfg.hkv, cfg.dev, counts, buildFails);
    }

    /** The builder's prewarm and then captures only, in a fresh process: a capture launches exactly what was
        prewarmed, and declines every other verify shape the kernel supports. */
    method RunCaptures(cfg: Config, buildFails: bool, calls: seq<Call>) returns (results: seq<Result>)
      requires Valid() && modules == {} && bufs == map[]
      modifies this
      ensures |results| == |calls|
      ensures forall k :: 0 <= k < |calls| ==>
        (results[k].Launched? <==> calls[k].Uniform() && calls[k].Supported() && !buildFails && cfg.Prewarms(calls[k]))
      ensures forall k :: 0 <= k < |calls| ==>
        (results[k].NotPrewarmed? <==>
          calls[k].Uniform() && calls[k].Supported() && (buildFails || !cfg.Prewarms(calls[k])))
    {
      hide Ladder, Call.Uniform, Call.Supported, Config.WarmKeys;
      var ok := BuilderInit(cfg, buildFails);
      ghost var m, b := modules, bufs.Keys;
      results := [];
      for k := 0 to |calls|
        invariant Valid() && modules == m && bufs.Keys == b && |results| == k
        invariant forall i :: 0 <= i < k ==> (results[i].Launched? <==> Hit(m, b, calls[i]))
        invariant forall i :: 0 <= i < k ==>
          (results[i].NotPrewarmed? <==> calls[i].Uniform() && calls[i].Supported() && !Hit(m, b, calls[i]))
      {
        var r := Verify(calls[k], true, false);
        results := results + [r];
      }
    }

    /** A process's whole life: the builder's prewarm, then any calls, eager or capturing, in any order.
        No capturing call ever builds anything, and a verify batch of a capture size never declines. */
    method RunAll(cfg: Config, calls: seq<(Call, bool, bool)>) returns (results: seq<Result>, built: seq<bool>)
      requires Valid() && cfg.Wanted() && cfg.page in PAGE_SIZES
      modifies this
      ensures |results| == |built| == |calls|
      ensures forall k :: 0 <= k < |calls| ==> calls[k].1 ==> !built[k]
      ensures forall k :: 0 <= k < |calls| ==> cfg.Covers(calls[k].0) ==> results[k].Launched?
    {
      hide Ladder, KeysFor, Config.WarmKeys, Config.Covers, Call.Uniform, Call.Supported;
      var ok := BuilderInit(cfg, false);
      results, built := [], [];
      for k := 0 to |calls|
        invariant Valid()
        invariant cfg.WarmKeys() <= bufs.Keys && (cfg.WarmKeys() != {} ==> cfg.Mod() in modules)
        invariant |results| == |built| == k
        invariant forall i :: 0 <= i < k ==> calls[i].1 ==> !built[i]
        invariant forall i :: 0 <= i < k ==> cfg.Covers(calls[i].0) ==> results[i].Launched?
      {
        var (c, capturing, buildFails) := calls[k];
        CoveredIsWarm(cfg, c);
        var m, b := modules, bufs.Keys;
        var r := Verify(c, capturing, buildFails);
        results := results + [r];
        built := built + [modules != m || bufs.Keys != b];
      }
    }
  }

  /** The builder's view of the configuration. */
  datatype Config = Config(
    enabled: bool, specTokens: nat, fullGraphs: bool,
    input: DType, kv: DType, page: nat, headDim: nat, headsQ: nat, hkv: nat, dev: nat,
    maxNumSeqs: nat, sizes: seq<nat>, qSeqLen: nat)
  {
    predicate Wanted() {
      && enabled && specTokens > 0 && fullGraphs && hkv > 0
      && headDim in HEAD_DIMS && input != OtherType
      && qSeqLen == 1 + specTokens
    }

    function Mod(): ModKey
      requires hkv > 0
    {
      ModKey(input, kv, page, headDim, headsQ / hkv, qSeqLen)
    }

    /** The buffers the builder makes. */
    function WarmKeys(): set<BufKey> {
      if Wanted() && page in PAGE_SIZES then KeysFor(Ladder(sizes, qSeqLen, maxNumSeqs), qSeqLen, hkv, dev) else {}
    }

    /** The builder makes what the call needs. */
    predicate Prewarms(c: Call)
      requires c.Uniform() && c.Supported()
    {
      c.Buf() in WarmKeys() && c.Mod() == Mod()
    }

    /** A uniform verify batch of the layer's own shape, padded to a capture size that is a multiple of
        the query length, with as many requests as the dispatcher puts there. */
    ghost predicate Covers(c: Call) {
      && c.maxQueryLen == qSeqLen && c.Uniform()
      && c.input == input && c.kv == kv && c.page == page && c.headDim == headDim
      && c.heads == headsQ && c.hkv == hkv && c.dev == dev
      && exists s :: s in sizes && s >= qSeqLen > 0 && s % qSeqLen == 0 && c.numReqs == Min(s / qSeqLen, maxNumSeqs)
    }
  }

  /** The buffer keys of a list of request counts. */
  function KeysFor(counts: seq<nat>, qSeqLen: nat, hkv: nat, dev: nat): set<BufKey> {
    set n | n in counts :: BufKey(n, qSeqLen, hkv, dev)
  }

  /** The caches hold what a call needs. */
  predicate Hit(modules: set<ModKey>, keys: set<BufKey>, c: Call) {
    c.Uniform() && c.Supported() && c.Mod() in modules && c.Buf() in keys
  }

  lemma CoveredIsWarm(cfg: Config, c: Call)
    requires cfg.Wanted() && cfg.page in PAGE_SIZES
    ensures cfg.Covers(c) ==>
      && c.Uniform() && c.Supported() && c.Mod() == cfg.Mod() && c.Buf() in cfg.WarmKeys()
  {
  }

  /** What is prewarmed, by the configuration: in particular no query length but one more than the number of
      speculative tokens, so the longer ones that parallel drafting brings are declined by every capture. */
  lemma PrewarmedShapes(cfg: Config, c: Call)
    requires c.Uniform() && c.Supported()
    ensures cfg.Prewarms(c) <==>
      && cfg.Wanted() && cfg.page in PAGE_SIZES && c.hkv == cfg.hkv && c.dev == cfg.dev && c.Mod() == cfg.Mod()
      && c.numReqs in Ladder(cfg.sizes, cfg.qSeqLen, cfg.maxNumSeqs)
    ensures cfg.Prewarms(c) ==> c.maxQueryLen == 1 + cfg.specTokens
  {
    hide Ladder;
    if cfg.Prewarms(c) {
      assert c.Buf() in cfg.WarmKeys();
    }
  }

  predicate Increasing(s: seq<nat>) {
    forall i, j :: 0 <= i < j < |s| ==> s[i] < s[j]
  }

  lemma InFront(s: seq<nat>, x: nat, rest: seq<nat>)
    requires Increasing(s) && s != [] && x > s[0] && Increasing(rest)
    requires forall y :: y in rest ==> y in s[1..] || y == x
    ensures Increasing([s[0]] + rest)
  {
    forall j | 0 <= j < |rest| ensures rest[j] > s[0] {
      assert rest[j] in rest;
      if rest[j] != x {
        var i :| 0 <= i < |s[1..]| && s[1..][i] == rest[j];
        assert s[i + 1] == rest[j];
      }
    }
  }

  /** x put into its place of an increasing list, once. */
  function Insert(s: seq<nat>, x: nat): (r: seq<nat>)
    requires Increasing(s)
    ensures Increasing(r)
    ensures forall y :: y in r <==> y in s || y == x
  {
    if s == [] then [x]
    else if x < s[0] then [x] + s
    else if x == s[0] then s
    else
      var rest := Insert(s[1..], x);
      assert s == [s[0]] + s[1..];
      InFront(s, x, rest);
      [s[0]] + rest
  }

  /** The sorted, distinct request counts of the capture sizes that are whole multiples of the query
      length. */
  function Ladder(sizes: seq<nat>, qSeqLen: nat, maxNumSeqs: nat): (r: seq<nat>)
    ensures Increasing(r)
    ensures forall n :: n in r <==>
      exists s :: s in sizes && s >= qSeqLen > 0 && s % qSeqLen == 0 && n == Min(s / qSeqLen, maxNumSeqs)
  {
    if sizes == [] || qSeqLen == 0 then []
    else
      var s := sizes[|sizes| - 1];
      var rest := Ladder(sizes[..|sizes| - 1], qSeqLen, maxNumSeqs);
      assert sizes == sizes[..|sizes| - 1] + [s];
      if s >= qSeqLen && s % qSeqLen == 0 then Insert(rest, Min(s / qSeqLen, maxNumSeqs)) else rest
  }
}
