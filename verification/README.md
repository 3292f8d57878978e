# Verification model of the FlashAmpere serving fork

This project models the exact algorithms inside a GPU-serving fork and proves what they are for.
Tensors are sequences or arrays, values are reals or integers, and kernels whose source is not part of
the model are functions with their documented meaning.

- **Attention kernels.** `Softmax` holds the online-softmax state, its step and the plain one-pass
  attention it must equal; `HeadMap` the query-head to KV-head mapping of both decode kernels;
  `SplitDecode` split-KV decoding (stage 1 programs, the intermediate buffers, stage 2);
  `ExtendAttention` the prefix-plus-triangle kernel with sliding window and tile skipping;
  `AttentionLaws` what binds the kernels' results to each other.
- **The flashampere runtime.** `PageMeta` is the paged-KV metadata and its scatter-compaction, `Hd512Decode`
  the shared decode buffers, `BatchPrefill` and `ReplayTemplate` the per-step plan and the recorded argument
  list, `PagedCache` the cache write and gather, `Dispatch` and `Fallback` the candidate table and the
  decline-and-sink chain, `Drafting` what plain softmax attention sees of it, `XqaVerify` and `DecodeEntry`
  the build-before-capture caches, `MaskPack` the packed causal mask.
- **Marlin W4A8.** `Int4Pack` packs signed nibbles into wrapped 32-bit words, `TilePadding` picks the
  padded shape, `MarlinGemm` prepares a layer and multiplies, `MarlinError` bounds the error,
  `KernelRegistry` registers the kernel.
- **Quantisation, denoising and small tools.** `FakeQuant`, `Denoise`, `Guards`, `Intervals`, `Numbers`,
  `Thousands` and `Prose`.
- `IndexArith`, `Digits`, `Rounding` and `Vectors` are shared arithmetic, `Wrappers` the option type.

Conventions. `exp` and `log` are a parameter `ExpLog` about which only the group laws are assumed
(`Laws`): `exp(a + b) = exp(a) exp(b)`, positivity, `exp(log x) = x` for `x > 0`. A masked score is a
separate constructor `NegInf`. An output element that divides zero by zero is `NaN`.

Where the code does not meet a property everywhere, the model keeps the code and a lemma says exactly
when it does:

- the grouped decode kernel reads the right KV head iff the group fits a block, is a multiple of the
  block, or there is at most one KV head (`HeadMap.GroupedHeadsRight`);
- planning a wrapper overwrites the shared hd512 metadata, which is still the step's iff the step is
  itself the worst case (`Hd512Decode.WorstCaseIsStale`) - so the anchor layer must come first;
  `Hd512Decode.LeftoverGoesWrong` is a step that is not;
- column constants reused after the table width changed hand the plan the right page ids, for every table
  and all lengths, iff the width is the same or the table has one row (`BatchPrefill.StaleColumns`);
- steps of one identity share a plan iff batch size, query tokens and total length agree: differing in one of
  these they have different keys (`BatchPrefill.KeysApart`), but two lengths can change so that the total does not
  (`BatchPrefill.KeysCollide`);
- a replayed argument list is the full one for every later call iff each per-call value occurs once in it
  (`ReplayTemplate.ReplayExact`);
- the batched prefill and the XQA verify leg mask causally whatever the metadata asks for, and the classifier
  sends uniform non-causal batches to them (vllm/vllm/v1/spec_decode/dflash.py:365-373 builds such metadata);
  forward leaves the stock path's rows, for every attention function, iff no such leg returns on a non-causal
  step or there are no requests, all by the legs' own guards (`Fallback.ForwardIsStock`, row by row
  `Fallback.RowIsStock`); over all caches and new tokens plain softmax attention alone is enough to see it
  (`Drafting.SoftmaxIsStock`), and `Drafting.DraftGoesWrong` is a step that goes wrong;
- a layer that shares another layer's cache passes no keys and values
  (vllm/vllm/model_executor/models/gemma3n.py:426), which a leg's cache write cannot take: forward raises iff
  the leg that is tried gets as far as its write (`Fallback.Device.Forward`), as on the causal step of
  `Drafting.KeylessRaises`. With keys and values at hand on such a layer the cache ends as the stock path
  leaves it iff no leg gets that far or no token has a slot (`Fallback.LayerCacheIsStock`);
- zero-padding the scales keeps their maximum, which every code is relative to, iff it is not negative or
  nothing is padded (`MarlinGemm.PaddedMax`);
- a capture declines every verify shape the builder did not make ready, among them all the longer ones of
  parallel drafting (`XqaVerify.Caches.RunCaptures`, `XqaVerify.PrewarmedShapes`);
- the W4A8 product of a layer with a single scale group is a TypeError, in this kernel as in the one it mirrors
  (`MarlinGemm.MarlinLayer.ApplyWeights`);
- the busy share of a timeline can exceed one: what is covered fits the code's span iff the overrun of
  the last-sorted end is no more than the idle time (`Intervals.CoveredFitsSpan`,
  `Intervals.SpanTooShort`), and the share reported is the true one iff the last-sorted interval ends latest or
  nothing is covered (`Intervals.ShareIsTrue`);
- a thin-space thousands separator followed by one of another kind splits the number
  (`Thousands.BoxedGroups`), so `1\,234,567` is read as 234567 (`Thousands.ThinCommaBreaks`), and operands
  left in braces fuse when the second has three digits, contrary to the comment at eval/gsm8k_eval.py:89-90,
  so `\binom{400}{110}` is read as 400110 (`Thousands.OperandsRead`).

## Model

| member | source | states |
|---|---|---|
| Softmax.StepRepresents | flashinfer/benchmarks/bench_attention_sink_triton_sgl_decode.py:121-128 | The invariant of every tile loop: after rescaling to any finite maximum and adding a tile, sum and accumulator scaled back by exp(max) are the plain softmax sums over all keys seen. |
| Softmax.FinishIsAttention | flashinfer/benchmarks/bench_attention_sink_triton_sgl_decode.py:534-542 | Dividing by sum plus exp(sink - max) gives plain one-pass attention with the sink counted once, whatever maximum was carried, including the NaN of an empty sum. |
| Softmax.MaxScoreIsMax | flashinfer/benchmarks/bench_attention_sink_triton_sgl_decode.py:121-121 | The tile maximum bounds every score and is attained; minus infinity exactly for a fully masked tile. |
| Softmax.SumsAppend | flashinfer/benchmarks/bench_attention_sink_triton_sgl_decode.py:124-127 | The plain sums over a concatenation are the sums of the parts, which is what lets tiles and splits be merged. |
| Softmax.SumsMasked | flashinfer/benchmarks/bench_attention_sink_triton_sgl_decode.py:108-108 | Keys masked to minus infinity contribute nothing to either sum. |
| Softmax.SumWeightsSign | flashinfer/benchmarks/bench_attention_sink_triton_sgl_decode.py:135-151 | The softmax denominator is positive exactly when some key is unmasked, so stage 1 never divides by zero. |
| HeadMap.KvHeadInRange | flashinfer/benchmarks/bench_attention_sink_triton_sgl_decode.py:255-267 | The KV head both kernels compute for a real query head exists. |
| HeadMap.StraddlingBlock | flashinfer/benchmarks/bench_attention_sink_triton_sgl_decode.py:257-265 | When blocks straddle groups, the first query head of the second KV head reads the first KV head. |
| HeadMap.GroupedHeadsRight | flashinfer/benchmarks/bench_attention_sink_triton_sgl_decode.py:255-267 | The grouped kernel reads KV head h div group for every query head iff the group fits a block, BLOCK_H divides it, or there is at most one KV head. |
| SplitDecode.SplitsReach | flashinfer/benchmarks/bench_attention_sink_triton_sgl_decode.py:73-77 | For every length and every split count between 1 and the grid's, the grid's ranges reach the end of the sequence. |
| SplitDecode.SplitsPartition | flashinfer/benchmarks/bench_attention_sink_triton_sgl_decode.py:73-77 | Each position lies in exactly one split range, and that split is in the grid iff the grid reaches it: the ranges are disjoint and cover [0, len). |
| SplitDecode.TileMax | flashinfer/benchmarks/bench_attention_sink_triton_sgl_decode.py:108-123 | The running maximum after a tile is the maximum of all keys so far despite masked lanes, and no exponent of the step is positive. |
| SplitDecode.SplitPartial | flashinfer/benchmarks/bench_attention_sink_triton_sgl_decode.py:79-152 | The tiled loop over a non-empty range leaves a partial: exp(lse) is the range's total weight and the row its normalised weighted sum, for every tile size. |
| SplitDecode.IndexIsCell | flashinfer/benchmarks/bench_attention_sink_triton_sgl_decode.py:136-147 | The store address formula and the load address formula, which divides base and offset separately, both equal (b * heads + h) * max + s. |
| SplitDecode.CellsAgree | flashinfer/benchmarks/bench_attention_sink_triton_sgl_decode.py:509-523 | Stage 2 reads exactly the cell stage 1 wrote, cells lie inside the buffer, and no two programs share one. |
| SplitDecode.Mid.Program | flashinfer/benchmarks/bench_attention_sink_triton_sgl_decode.py:28-152 | One stage 1 program leaves its own cell a partial of its range (an empty range asks nothing of it) and breaks no other program's cell. |
| SplitDecode.Mid.Stage1 | flashinfer/benchmarks/bench_attention_sink_triton_sgl_decode.py:155-220 | After the per-head grid every (batch, head, split) cell holds the partial of its range. |
| SplitDecode.Mid.GroupProgram | flashinfer/benchmarks/bench_attention_sink_triton_sgl_decode.py:223-417 | One grouped program fills the cells of its block's query heads for its split and breaks no other. |
| SplitDecode.Mid.GroupedStage1 | flashinfer/benchmarks/bench_attention_sink_triton_sgl_decode.py:420-472 | The grouped grid, with its masked head lanes, fills every (batch, head, split) cell with the partial of its range against its block's KV head. |
| SplitDecode.HandledOnce | flashinfer/benchmarks/bench_attention_sink_triton_sgl_decode.py:255-267 | Every query head is the work of exactly one unmasked lane of exactly one grouped program, and that program is in the grid. |
| SplitDecode.PartialIsKey | flashinfer/benchmarks/bench_attention_sink_triton_sgl_decode.py:520-532 | Merging a partial as one key of score lse continues the online softmax over the keys of its range. |
| SplitDecode.Mid.Merge | flashinfer/benchmarks/bench_attention_sink_triton_sgl_decode.py:497-542 | Stage 2 of one row: skipping empty ranges and merging the rest gives attention over every key the grid reaches, the sink added once. |
| SplitDecode.Mid.Stage2 | flashinfer/benchmarks/bench_attention_sink_triton_sgl_decode.py:545-590 | Every output row is stored with that value. |
| SplitDecode.DecodeAttention | flashinfer/benchmarks/bench_attention_sink_triton_sgl_decode.py:675-729 | The whole launch, on the kernel the group size selects, decodes every row. |
| SplitDecode.DecodeIsAttention | flashinfer/benchmarks/bench_attention_sink_triton_sgl_decode.py:73-152 | Split-KV decode is exact: for every length, tile size and split count with which the grid reaches the end (all up to the grid's, by `SplitsReach`) the stored element is plain attention over the whole sequence against KV head h div group; NaN iff the sequence is empty and there is no sink. |
| ExtendAttention.TilesAreWindows | flashinfer/benchmarks/bench_attention_sink_triton_sgl_context.py:121-142 | The two stages' different mask formulas are one causal sliding-window mask: their tiles are windows on one masked key list. |
| ExtendAttention.NextMaxDominates | flashinfer/benchmarks/bench_attention_sink_triton_sgl_context.py:187-193 | With the -1e20 stand-in the running maximum is finite and no exponent is positive. |
| ExtendAttention.SkippedPrefix | flashinfer/benchmarks/bench_attention_sink_triton_sgl_context.py:136-148 | A skipped prefix tile holds no key any row of the block may see. |
| ExtendAttention.SkippedTriangle | flashinfer/benchmarks/bench_attention_sink_triton_sgl_context.py:245-256 | A skipped triangle tile holds no key any row of the block may see. |
| ExtendAttention.BeyondTriangle | flashinfer/benchmarks/bench_attention_sink_triton_sgl_context.py:212-240 | The causal tile bound drops no allowed key. |
| ExtendAttention.PrefixStage | flashinfer/benchmarks/bench_attention_sink_triton_sgl_context.py:113-208 | After the prefix loop each row's state stands for exactly the prefix keys it may see, for all block sizes. |
| ExtendAttention.TriangleStage | flashinfer/benchmarks/bench_attention_sink_triton_sgl_context.py:210-307 | The second loop carries the same states on to every key of the triangle. |
| ExtendAttention.Program | flashinfer/benchmarks/bench_attention_sink_triton_sgl_context.py:29-330 | One program stores attention for its block's valid rows and changes no other output element. |
| ExtendAttention.ExtendAttentionFwd | flashinfer/benchmarks/bench_attention_sink_triton_sgl_context.py:333-470 | After the grid every row within max_len_extend of every request and head holds causal, windowed attention over prefix ++ extend. |
| ExtendAttention.ExtendIsAttention | flashinfer/benchmarks/bench_attention_sink_triton_sgl_context.py:113-330 | The grid reaches every new token of a request no longer than max_len_extend, and no stored value is a NaN. |
| AttentionLaws.ChunkedRow | flashinfer/benchmarks/bench_attention_sink_triton_sgl_context.py:71-84 | Chunked prefill: however the tokens of a request are divided between cache and new rows and wherever they are kept, the query at a position gets the same row, for every head, mask and window; under a causal mask later tokens make no difference. |
| AttentionLaws.RowIsDecode | flashinfer/benchmarks/bench_attention_sink_triton_sgl_context.py:113-330 | A row of an extend launch is what a decode launch gives the same query over the tokens the row may see: up to its own when causal, the last window + 1 of them under a window. Extending by one token is decoding over prefix and token. |
| AttentionLaws.KeyIs | flashinfer/benchmarks/bench_attention_sink_triton_sgl_context.py:74-74 | Head h sees of every token, cached or new, the key and value of KV head h div group, hidden exactly behind the window or, when causal, after its own position. |
| AttentionLaws.RowsApart | flashinfer/benchmarks/bench_attention_sink_triton_sgl_decode.py:67-88 | A decode batch gives each row what a launch of that row alone would, for either kernel and any grid. |
| AttentionLaws.SinkIsKey | flashinfer/benchmarks/bench_attention_sink_triton_sgl_decode.py:534-542 | A sink counts as one more key, with its score and without a value. |
| AttentionLaws.TanhIs | flashinfer/benchmarks/bench_attention_sink_triton_sgl_decode.py:22-24 | The scaled sigmoid is the hyperbolic tangent, and lies in (-1, 1). |
| AttentionLaws.CappedIs | flashinfer/benchmarks/bench_attention_sink_triton_sgl_decode.py:102-106 | Without a cap the score is left alone; a cap bends it into (-cap, cap). |
| Vectors.ScoreIsBilinear | flashinfer/benchmarks/bench_attention_sink_triton_sgl_decode.py:102-103 | The score is additive in query and in key. |
| Vectors.ScoreReads | flashinfer/benchmarks/bench_attention_sink_triton_sgl_decode.py:102-103 | Coordinate i of the query meets coordinate i of the key, scaled. |
| PageMeta.PagesAddUp | flashampere/kernels.py:178-182 | (pages - 1) * ps + last_page_len is the length and 1 <= last_page_len <= ps, zero length included. |
| PageMeta.CompactSlice | flashampere/kernels.py:196-204 | Slice [indptr[i], indptr[i+1]) of the compacted ids is the first ceil(len/ps) ids of row i. |
| PageMeta.TotalBound | flashampere/kernels.py:189-197 | The compacted ids never outgrow the flattened table, so the trash slot stays out of the used range. |
| PageMeta.ScatterCompact | flashampere/kernels.py:189-204 | The running-count scatter with a trash slot computes the row-by-row concatenation of used page ids; the rest of the buffer is zero. |
| PageMeta.SingleRowServed | flashampere/kernels.py:193-200 | On one row any constants that nowhere exceed their position give the right page ids for all lengths: excess entries come behind the used ones. |
| Hd512Decode.State.BuildMeta | flashampere/kernels.py:559-572 | The shared buffers are filled with the same indptr, page ids and last-page lengths as the batched prefill plan's. |
| Hd512Decode.State.EnsureWrapper | flashampere/kernels.py:574-599 | Planning a new wrapper leaves the worst-case view behind; an existing wrapper's view is untouched. |
| Hd512Decode.State.Run | flashampere/kernels.py:601-634 | One layer's call: declines iff capturing without a wrapper; otherwise what it runs on is the step's metadata for the anchor layer, the old view for another layer, the worst case if that layer had to plan. |
| Hd512Decode.State.RunStep | flashampere/kernels.py:601-634 | In a step whose first call is the anchor layer, every call of the step runs on the current metadata. |
| Hd512Decode.State.RunAll | flashampere/kernels.py:553-634 | Over every run of steps with varying batch sizes, every call sees this step's metadata and qo = [0, 2, .., 2B], and declines only when captured before its batch size was warmed. |
| Hd512Decode.LeftoverGoesWrong | flashampere/kernels.py:574-599 | One request of 20 tokens in pages 7 and 8: the leftover plan reads pages 0 and 1 and 16 tokens of the last instead of 4. |
| Hd512Decode.WorstCaseIsStale | flashampere/kernels.py:574-599 | The plan's leftover view is the step's own iff every request owns mb full pages numbered consecutively - so skipping the rebuild is wrong in every other step. |
| ReplayTemplate.RecordsExactly | flashampere/kernels.py:247-273 | The first call is recorded iff the kernel is passed all four tensors and every attribute a plan replaces, none of them None. |
| ReplayTemplate.RecordFaithful | flashampere/kernels.py:247-273 | When no object plays two roles, the recorded slots are exactly the occurrences of every plan attribute. |
| ReplayTemplate.RefreshFaithful | flashampere/kernels.py:211-216 | Refreshing the slots after a re-plan keeps the template faithful to the new attributes. |
| ReplayTemplate.ReplayIsFull | flashampere/kernels.py:223-232 | A faithful template with each per-call value occurring once replays exactly the full argument list. |
| ReplayTemplate.ReplayExact | flashampere/kernels.py:218-274 | The recorded template gives the full arguments for all later plans and calls iff q, k, v and out each occur at most once in the layout. |
| ReplayTemplate.UsualLayout | flashampere/kernels.py:258-273 | The layout whose tail repeats both indptr attributes is recorded and replays exactly for ever after, given nine distinct objects. |
| BatchPrefill.RefreshSlots | flashampere/kernels.py:211-216 | The in-place loop gives each slot named by one entry that attribute's new object and leaves every other argument alone. |
| ReplayTemplate.RefreshedAt | flashampere/kernels.py:211-216 | After a refresh every recorded position holds its attribute's new object and every other position what it held. |
| BatchPrefill.State.PlanStep | flashampere/kernels.py:166-216 | Plans once per key: a repeated key or a failing plan changes nothing; a new one installs the attributes, refreshes the template, and hands over the page ids the scatter yields with the constants at hand - the step's own metadata whenever those serve it. |
| BatchPrefill.State.RunFast | flashampere/kernels.py:218-274 | Recording or replaying, the kernel receives the full argument list for the current attributes; the template is made by the first call and only its arguments change after. |
| BatchPrefill.State.RunAll | flashampere/kernels.py:166-315 | Over every run of steps with distinct keys and one table width, each layer's call gets the full arguments of its own step's plan, or declines iff that plan fails; only calls not preceded by a recorded one must have unshared objects. |
| BatchPrefill.KeysApart | flashampere/kernels.py:170-174 | Steps of one identity have different keys if they differ in batch size, query tokens or one request's length. |
| BatchPrefill.KeysCollide | flashampere/kernels.py:170-174 | Lengths 1 and 3 after lengths 2 and 2, under one identity and with the same offsets, have the same key. |
| BatchPrefill.StaleColumns | flashampere/kernels.py:189-199 | Constants built for one width and long enough for another shape make the scatter right for every table and all lengths iff the width is the same or there is one row; otherwise there are lengths and a table it gets wrong. |
| PagedCache.WriteAt | vllm/csrc/libtorch_stable/cache_kernels.cu:267-355 | After the write a slot holds the last token mapped to it, or its old content. |
| PagedCache.WriteTwice | flashampere/kernels.py:403-407 | Writing the same step again changes nothing. |
| PagedCache.WriteInvisible | flashampere/kernels.py:403-407 | The write leaves a given cache as it was iff every slot already holds the last token mapped to it. |
| PagedCache.ReshapeAndCache | vllm/csrc/libtorch_stable/cache_kernels.cu:267-355 | The in-place kernel loop, negative slots skipped, is that write. |
| PagedCache.WriterOf | flashampere/kernels.py:403-420 | With consistent slots, an old position is written by nobody and a new one exactly by its own token. |
| PagedCache.TokenAt | flashampere/kernels.py:87-93 | Token p of the gathered request is the cache entry at its block-table slot. |
| PagedCache.CacheRefinesSequences | flashampere/kernels.py:403-431 | After the write, gathering a request gives its old context followed by its new tokens, for every request. |
| PagedCache.OthersUntouched | flashampere/kernels.py:403-431 | A list of blocks none of which holds one of the step's new tokens - another request's, or a shared prefix - gathers to the same tokens as before. |
| Dispatch.ResolvedAt | flashampere/dispatch.py:88-90 | Every matching row is offered, each behind exactly the matching rows registered before it, and nothing else is: the priority order is the table order. |
| Dispatch.Table.BuildDefaultTable | flashampere/dispatch.py:97-156 | Whatever was registered before, the table becomes the default rows in their order. |
| Dispatch.OfferedFor | flashampere/dispatch.py:97-156 | Exactly which legs the default table offers for a call: by phase, head size and query dtype, only for plain decoders with an unquantised cache, and only the verify leg is capture-safe. |
| Fallback.ExactSeqLensCpu | flashampere/kernels.py:318-337 | Wherever the builder's bound is used instead of a device sync, the lengths of all rows with queries are exact; the prefill leg works with these lengths, and nothing it does depends on those of other rows. |
| Fallback.FreshIsGathered | flashampere/kernels.py:422-431 | With no context, using the new keys and values directly equals gathering them from the cache. |
| Fallback.ForwardIsStock | flashampere/impl.py:120-216 | Fallback is invisible in the rows: forward's are the stock path's for every attention function iff no leg that always masks causally is tried, reaches its write and gets its plan or module on a non-causal step with keys, or there are no requests. |
| Fallback.RowIsStock | flashampere/xqa_verify.py:77-93 | Row by row: they agree for every attention function iff no such leg returned or the row is its request's last. |
| Fallback.LayerCacheIsStock | vllm/vllm/model_executor/layers/attention/attention.py:540-558 | Given keys and values, the cache ends as the stock path leaves it, whatever they are and whatever it held, iff the layer writes its own cache first, no leg reaches its write, or no token has a slot. |
| Drafting.SoftmaxIsStock | flashampere/xqa_verify.py:77-93 | With plain softmax attention over scaled dot products, forward's rows are the stock path's for every cache and all new tokens iff that same condition holds. |
| Drafting.DraftGoesWrong | vllm/vllm/v1/spec_decode/dflash.py:355-373 | A non-causal block of two queries behind one token of context, only the last token having a value: forward's first row is 0, the stock path's a third. |
| Drafting.KeylessRaises | vllm/vllm/model_executor/models/gemma3n.py:420-430 | A causal verify step of a layer without keys and values of its own reaches the verify leg's write, so forward raises. |
| Fallback.UniformRows | flashampere/xqa_verify.py:161-164 | When the token count is batch times q_seq_len, every request has exactly q_seq_len rows at the offset the reshape assumes. |
| Fallback.Device.RunPerRequest | flashampere/kernels.py:414-476 | The per-request loop declines iff it upcasts and some request's operands leave the fp16 range; otherwise every row is the attention under the step's own mask, fresh and cached branch alike. It touches no cache and no padding row. |
| Fallback.Device.Fp16Prefill | flashampere/kernels.py:340-476 | For every head size and mask: when the leg declines, raises for want of keys, or returns; the cache it leaves; and its rows - causal on the batched path whatever the step asks for, the step's mask otherwise. Rows past the last request are zeroed by a batched call that clears its output (the recording one, or any without FAMP_BP_NOZERO=1) and kept elsewhere. |
| Fallback.Device.VerifyLeg | flashampere/xqa_verify.py:159-236 | For every mask: the leg returns iff the batch is uniform, the shape supported, keys given and the caches warm or building allowed; then every row is the causal one. |
| Fallback.Device.Forward | flashampere/impl.py:120-216 | For head size up to 256 and any mask: it raises iff the leg it tries reaches its write without keys; the cache is unchanged if the step was written before, else written iff that leg reaches its write; and every row is the leg's if it returned and the stock path's if it declined at any point. A step with masking the legs do not implement leaves the cache and gets the stock path's rows. |
| Fallback.OtherMaskingSinks | flashampere/impl.py:81-105 | A step with a multimodal prefix, reference windows, causality by request, or a window that is not one of the two ways to say none tries no leg: forward does not raise, leaves the cache, and every row is what the stock path computes for such a step. |
| Fallback.PlainStepIsMasked | flashampere/impl.py:81-105 | A step with none of these, on a plain decoder without cascade, is attention under its own mask on the stock path. |
| Fallback.TriedWhen | flashampere/impl.py:107-216 | Which leg is tried, by the fields of environment, layer and step alone. |
| Fallback.Device.Layer | vllm/vllm/model_executor/layers/attention/attention.py:540-558 | From any cache, the layer's own update followed by forward leaves one write of the step, so every request reads its old context followed by its new tokens; the rows are the stock path's over that cache unless a leg returned under the wrong mask; sharing and key-less layers included. |
| MaskPack.WordIsExact | flashampere/xqa_verify.py:77-93 | Shifting and summing 32 mask bits into a word loses none. |
| MaskPack.MaskBit | flashampere/xqa_verify.py:77-93 | Bit k of row q of the uint16-viewed mask is set iff k <= q, and every padding bit is clear, for every q_seq_len. |
| XqaVerify.Ladder | flashampere/backend.py:86-94 | The ladder is increasing and holds min(size div q, max_num_seqs) for exactly the capture sizes that are multiples of q. |
| XqaVerify.Caches.Prewarm | flashampere/xqa_verify.py:129-157 | On success with a supported page exactly the module and the buffers of every count are added; otherwise nothing is. |
| XqaVerify.Caches.Verify | flashampere/xqa_verify.py:159-236 | A capture creates nothing; each of the declines happens exactly when its condition holds; a launch reads buffers of its own shape, whose mask has bit k of row q set iff k <= q for every request. |
| XqaVerify.MaskIsCausal | flashampere/xqa_verify.py:70-97 | The mask of every buffer, for every request and query, is the causal one over the last positions, padding clear. |
| XqaVerify.Caches.BuilderInit | flashampere/backend.py:57-113 | Initialisation adds exactly the module and the buffers of the ladder's counts, unless the build raises. |
| XqaVerify.Caches.RunCaptures | flashampere/backend.py:84-107 | In a fresh process a capture launches a supported verify batch iff the builder made its module and buffers, and declines every other. |
| XqaVerify.PrewarmedShapes | flashampere/impl.py:35-47 | What the builder made, by the configuration: its own layer shape, a count of the ladder, and no query length but one more than the speculative tokens. |
| XqaVerify.Caches.RunAll | flashampere/backend.py:84-107 | On every run after prewarming, nothing is built while capturing and every call of a covered shape is launched. |
| XqaVerify.CoveredIsWarm | flashampere/backend.py:84-107 | A uniform batch of a capture size that is a multiple of q asks for exactly the module and a buffer key of the ladder. |
| DecodeEntry.Entry.DecodeHd512 | flashampere/kernels.py:744-772 | Under capture no state, wrapper or buffer is built; with a state and no wrapper it declines, with no state it takes the eager path, which synchronises. |
| DecodeEntry.Entry.RunAll | flashampere/kernels.py:744-772 | Over every run nothing is built while capturing, and a batch size once run eagerly is served from the state ever after. |
| FakeQuant.ElementBound | benchmarks/dllm_int8_fakequant.py:52-69 | The clamp never binds and every element moves by at most half a scale. |
| FakeQuant.ScaleKept | benchmarks/dllm_int8_fakequant.py:58-60 | A quantised group has the scale of the original, also below the 1e-8 floor. |
| FakeQuant.QuantTwice | benchmarks/dllm_int8_fakequant.py:63-69 | Quantising a quantised group returns it unchanged. |
| FakeQuant.QuantWeightTwice | benchmarks/dllm_int8_fakequant.py:52-60 | So does quantising a whole weight by rows and groups, for every group size. |
| FakeQuant.QuantRowIs | benchmarks/dllm_int8_fakequant.py:52-60 | Every element of a quantised weight row is a whole number from -qmax to qmax of its run's largest magnitude (at least 1e-8) over qmax = 2^(bits-1) - 1, within half of that of the original; runs are of the asked group size if it is positive and divides the width, else the whole row. |
| FakeQuant.FourAndEightBits | benchmarks/dllm_int8_fakequant.py:56-66 | qmax is 7 for four bits and 127 for eight. |
| FakeQuant.ForwardIs | benchmarks/dllm_int8_fakequant.py:96-102 | So does the forward function compute with such weights and tokens. |
| FakeQuant.FakeQuantLinear.BakeInplace | benchmarks/dllm_int8_fakequant.py:91-94 | The layer stays consistent with its original weight, and baking a second time changes nothing. |
| FakeQuant.FakeQuantLinear.Forward | benchmarks/dllm_int8_fakequant.py:96-102 | At any point of any history of bakes and toggles, the output is the bias plus the dot product of the token and the original weight row, each replaced by its quantisation when that is on - described element by element, without the functions that compute it. |
| Denoise.RevealBound | benchmarks/dllm_int8_fakequant.py:179-181 | The schedule never asks for more positions than are masked, and with an end time in [0, 1] never for a negative number. |
| Denoise.TopK | benchmarks/dllm_int8_fakequant.py:183-187 | Exactly k distinct positions, none outside them more confident. |
| Denoise.PicksMasked | benchmarks/dllm_int8_fakequant.py:184-187 | With the -1 fill, top-k never picks an unmasked position. |
| Denoise.AdvanceReveals | benchmarks/dllm_int8_fakequant.py:179-188 | A step of n reveals exactly n masked positions and changes no other; what it reveals holds the model's token, and nothing left masked was more confident. |
| Denoise.CanvasKeeps | benchmarks/dllm_int8_fakequant.py:156-188 | Over the whole run each step reveals its scheduled count, most confident first and with the model's tokens, prompt and revealed tokens never change, and after the last step no mask remains. |
| Denoise.ShareLeaves | benchmarks/dllm_int8_fakequant.py:179-181 | Of the positions masked at time t the schedule leaves so many at time s that their number times t lies in [masked * s, masked * s + t): in proportion to the time left, rounded up. |
| Denoise.CanvasIsRun | benchmarks/dllm_int8_fakequant.py:156-188 | For an end time in [0, 1] the canvases are a run described step by step: which positions are revealed, with what tokens, and how many by the times 1 + i (eps - 1) / steps written out. |
| Denoise.RunErrorCurve | benchmarks/dllm_int8_fakequant.py:151-189 | The in-place loop with its early exit ends on that canvas, hence at the end of such a run, keeps the prompt and leaves no mask. |
| Denoise.RunProfile | benchmarks/dllm_int8_fakequant.py:365-380 | The profiling loop, with its own clipping, follows the same trajectory and ends at the end of such a run. |
| Int4Pack.WordBits | flashampere/marlin/kernel.py:151-155 | The wrapped 32-bit word is congruent to the nibbles' value, so the cast loses no bit. |
| Int4Pack.PackRoundTrip | flashampere/marlin/kernel.py:147-156 | Nibble j of the word minus 8 is weight j, for all weights in [-8, 7]. |
| Int4Pack.ZeroWordDecodes | flashampere/marlin/kernel.py:161-166 | A padding word decodes to -8 in every nibble, not to zero. |
| TilePadding.LcmDivides | vllm/vllm/model_executor/layers/quantization/utils/marlin_utils.py:222-254 | The least common multiple divides every common multiple. |
| TilePadding.PaddedIsMinimal | vllm/vllm/model_executor/layers/quantization/utils/marlin_utils.py:222-254 | The padded shape is one the kernel accepts, and none it accepts has a smaller area. |
| TilePadding.AlignedUnchanged | vllm/tests/kernels/quantization/test_marlin_tile_padding.py:62-95 | An acceptable shape is not padded. |
| MarlinGemm.PaddedWeight | flashampere/marlin/kernel.py:145-175 | After packing and padding, the kernel reads the original weight inside and -8 in the K padding. |
| MarlinGemm.PaddedMax | flashampere/marlin/kernel.py:177-193 | Padding the scales leaves their maximum, hence every scale code, unchanged iff it is not negative or nothing is padded. |
| MarlinGemm.ScaleCodeFits | vllm/vllm/model_executor/layers/quantization/utils/marlin_utils.py:544-548 | The code of a scale no further below zero than eight times the maximum is in [-32768, 4096], of one not negative in [0, 4096], so the cast to 16 bits loses nothing. |
| MarlinGemm.PaddedTokenMax | flashampere/marlin/kernel.py:275-275 | Zero-padding an activation leaves its per-token scale unchanged. |
| MarlinGemm.PadCodeIsZero | vllm/vllm/model_executor/layers/quantization/utils/int8_utils.py:64-87 | A padded activation quantises to 0, which cancels the -8 of the padding words. |
| MarlinGemm.PaddedSum | flashampere/marlin/kernel.py:254-327 | The integer sum at padded extents is the unpadded one, for all shapes and group sizes. |
| MarlinGemm.MarlinLayer.ProcessWeights | flashampere/marlin/kernel.py:108-244 | The layer's fields become the packed and padded form of the given weights, scales and bias. |
| MarlinGemm.MarlinLayer.ApplyWeights | flashampere/marlin/kernel.py:246-327 | Padding preserves the W4A8 product: pad, quantise, multiply at padded extents and strip columns gives the unpadded quantised product, or the TypeError of a layer with a single scale group. |
| MarlinError.ProductIs | flashampere/marlin/kernel.py:246-327 | Every output is within an explicit slack - half a unit of absmax / 127 per activation and of max / 4096 per scale - of the sum of x[i] * w[o][i] * s[i div groupSize][o] plus the bias, and equals it when activations and scales are whole numbers of units; it is a TypeError iff the inputs have no two groups. |
| MarlinError.TokenCodeIs | vllm/vllm/model_executor/layers/quantization/utils/int8_utils.py:64-87 | The code of an activation fits 8 bits and is the activation in units of its token's absmax / 127, rounded. |
| MarlinError.ScaleCodeIs | vllm/vllm/model_executor/layers/quantization/utils/marlin_utils.py:544-548 | The code of a scale is the scale in units of max / 4096, rounded. |
| KernelRegistry.Registry.Register | flashampere/marlin/kernel.py:381-435 | Inserts before the earliest competitor; a second call changes nothing; a failed load restores the list exactly. |
| KernelRegistry.ChosenIs | vllm/vllm/model_executor/kernels/linear/__init__.py:813-876 | The kernel chosen for a layer is the first of the list that is not disabled, that the device is capable of, that can implement the layer, and that the backend names if it names any; None iff there is none. |
| KernelRegistry.MirrorTakesMarlin | flashampere/marlin/kernel.py:391-423 | Every layer Marlin served is served by its mirror; any other keeps its kernel or gets the usable mirror, also under the marlin backend. |
| Guards.Check | scripts/check_native_guards.py:22-37 | The one-pass checker gives the verdict the grammar defines: None for a derivable file, the first unmatched #endif or stray #else, or the earliest #if without an #endif and how many are missing. |
| Guards.VerdictUnique | scripts/check_native_guards.py:22-37 | A file has one correct verdict, so None iff the directives derive from S ::= empty, or if S (mid S)* endif S, and each complaint iff it applies. |
| Guards.ShapeDepth | scripts/check_native_guards.py:25-34 | The stack is as high as the nesting is deep. |
| Guards.ShapeEnds | scripts/check_native_guards.py:35-36 | As many #endif lines as the stack is high balance the file. |
| Guards.StackHangs | scripts/check_native_guards.py:35-36 | Every line left on the stack is an #if that no #endif closes. |
| Intervals.ComponentsUnique | benchmarks/analyze_nsys.py:90-100 | A union of intervals has one list of separated components, so its measure is well defined. |
| Intervals.MeasureUnique | benchmarks/analyze_nsys.py:90-100 | So two measures of one union are equal, whatever order or overlap the intervals came in. |
| Intervals.Merge | benchmarks/analyze_nsys.py:92-100 | Over sorted intervals the loop's total is the measure of the union and at most the sum of durations. |
| Intervals.Bubble | benchmarks/analyze_nsys.py:79-102 | None iff no intervals; the busy share times the span is the measure of the union; a zero span means nothing was covered. |
| Intervals.Analyze | benchmarks/analyze_torch_prof.py:63-84 | Bucket times and total are the sums of durations, busy times span is the measure of the union and at most the total. |
| Intervals.BusyPlusIdle | benchmarks/analyze_nsys.py:91-100 | Busy and idle time add up to latest end minus earliest start. |
| Intervals.CoveredFitsSpan | benchmarks/analyze_nsys.py:90-101 | Covered is at most latest end minus earliest start; it fits the code's span iff the overrun past the last-sorted end is at most the idle time, so always when that end is the latest. |
| Intervals.ShareIsTrue | benchmarks/analyze_nsys.py:90-101 | The span is the whole extent iff the interval that sorts last ends latest; the reported busy share is the share of the extent iff that, or nothing is covered. |
| Intervals.SpanTooShort | benchmarks/analyze_nsys.py:90-101 | Intervals [0, 10] and [1, 2]: span 2, covered 10. |
| Numbers.BodyExact | eval/gsm8k_eval.py:57-69 | The scan stops at the one closing brace with balanced text before it; with none it takes the rest of the text. |
| Numbers.ScanBody | eval/gsm8k_eval.py:57-69 | The character loop returns exactly that body. |
| Numbers.BoxedNumber | eval/gsm8k_eval.py:53-75 | The result is the number of the last box that yields one, over all positions a box can start at, and None iff no box yields one. |
| Numbers.AfterThinkExact | eval/gsm8k_eval.py:40-44 | The answer span is the text after the last marker, or the whole text. |
| Numbers.LastBoxWins | eval/gsm8k_eval.py:96-103 | Whatever precedes the last box, the prediction is that box's number. |
| Prose.LastNumberWins | eval/gsm8k_eval.py:96-103 | Of an answer without a box or other LaTeX the last number is read, with sign and decimals and without its commas, whatever was thought and whatever numbers precede it, if a space that follows no digit is in front of it. |
| Prose.PrintedNatural | eval/gsm8k_eval.py:78-103 | So every natural printed with commas between its thousands reads back with its sign and decimals, a full stop behind it or not. |
| Prose.NothingRead | eval/gsm8k_eval.py:96-103 | Without a digit the prediction is None. |
| Prose.SpaceAdmitted | eval/gsm8k_eval.py:56-91 | Any white space may stand between a box's name and its brace and inside an empty group. |
| Prose.GapJoins | eval/gsm8k_eval.py:93-93 | Any gap of white space and ties behind a digit goes exactly when three digits follow. |
| Thousands.BoxedGroups | eval/gsm8k_eval.py:78-103 | A grouped number in the last box reads back as all its digits iff no thin space is followed by another kind of separator; otherwise as the digits after the last such break. |
| Thousands.ThinCommaBreaks | eval/gsm8k_eval.py:78-103 | `1\,234,567` is read as 234567. |
| Thousands.NaturalReadBack | eval/gsm8k_eval.py:78-103 | Every natural printed with groups joined by `,`, by `{,}` or by `\,` reads back as its plain digits. |
| Thousands.OperandsFuse | eval/gsm8k_eval.py:78-93 | Two operands left in braces come out apart iff the second does not have three digits. |
| Thousands.OperandsRead | eval/gsm8k_eval.py:78-103 | Behind a command in the last box, two operands are read as the second alone iff it does not have three digits, and as one fused number otherwise. |
| Thousands.BinomialFuses | eval/gsm8k_eval.py:78-103 | `\binom{400}{110}` is read as 400110. |

## Left out

- Floating point: rounding of products and sums, bf16 and fp16 effects, overflow and NaN other than zero over zero. The fp16 range guard is an abstract decline condition.
- Kernels without source here (XQA, FlashInfer, Marlin CUDA, stock flash attention) are functions with their documented meaning; the scale and bias permutations of the Marlin layout are part of that meaning.
- Grid programs of the Triton kernels are modelled one after the other; each stores only its own cells, which is proved.
- Head-dimension padding to a power of two, the split-head (BLOCK_DPE) path, custom masks and logits other than capped scores in the Triton kernels.
- SplitDecode.DecodeIsAttention: needs the grid's splits to reach the end of the sequence, as they do for split counts up to the grid's, which the launch code provides; otherwise `DecodeSpec` says that only the prefix the grid reaches is attended to.
- SplitDecode.DecodeIsAttention: needs the head mapping to be right, with the exact condition in `HeadMap.GroupedHeadsRight`.
- BatchPrefill.State.RunAll: a wrapper's plan is one atomic step, distinct steps have distinct keys (the code's key is a fingerprint) and the table width is constant, with the exact condition in `StaleColumns`.
- Hd512Decode.State.RunAll: each step's first call is the anchor layer and all its calls share one batch, as the runtime orders them; `WorstCaseIsStale` says what goes wrong otherwise.
- Fallback.Device.Forward: head sizes up to 256; above that `DecodeEntry` and `Hd512Decode` model the decode state, not the rows it computes. A call without metadata (profiling) is not modelled.
- Fallback.Device.Forward: the stock path is a function of the cache that does not raise and leaves rows past the last request alone; the two cases in which it reads keys directly (encoder layers, context parallelism) are part of its `other` rows.
- DecodeEntry.Entry.RunAll: says nothing about the eager path taken under capture when no state exists; that path synchronises with the device.
- MarlinGemm.MarlinLayer.ApplyWeights: symmetric int4 weights with int8 activations only; asymmetric zero points, fp8 activations and 16-bit activations are not modelled. One token row at a time; rows do not interact. Scales more than eight times as far below zero as the largest is above do not fit their 16-bit codes and are left out, as are layers without a positive scale.
- FakeQuant.ElementBound: widths of at least two bits; one bit gives a zero divisor.
- Denoise.TopK: of equally confident positions the first is taken; the library leaves the order of ties open, and nothing proved depends on it.
- Denoise.RunErrorCurve: the per-step error statistics and the second, quantised forward pass are not modelled; they do not touch the canvas.
- Guards.Check: which lines are directives is given, not read from the text by the regular expressions.
- Numbers.BoxedNumber: the evaluation of fractions is a parameter that leaves texts without an `f` or without a backslash alone, since it prints floats; digits and white space are ASCII only.
- Intervals.Bubble: reading CSV and JSON and sorting kernel names into buckets; an event carries its bucket.
- The scratch buffer of the verify leg, logging latches, fire counters, environment parsing, device names and model profiles.
- Build scripts, installers, benchmark drivers, HTTP clients, `gold_number` and `numbers_match`.
