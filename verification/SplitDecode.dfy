/** Split-KV decode attention: stage 1 computes one partial per (batch, head, split), stage 2 merges
    the partials through their log-sum-exps and adds the sink. */
module SplitDecode {
  import opened HeadMap
  import opened IndexArith
  import opened Softmax
  import opened Vectors

  const MIN_BLOCK_KV: nat := 32

  // ---- split ranges ----

  function PerSplit(len: nat, splits: nat): nat
    requires splits > 0
  {
    CeilDiv(CeilDiv(len, splits), MIN_BLOCK_KV) * MIN_BLOCK_KV
  }

  function SplitStart(per: nat, id: nat): nat {
    per * id
  }

  function SplitEnd(per: nat, id: nat, len: nat): nat {
    Min(SplitStart(per, id) + per, len)
  }

  /** How far the first `count` splits reach. */
  function Covered(per: nat, count: nat, len: nat): nat {
    Min(per * count, len)
  }

  /** The grid's splits reach the end of the sequence whenever the requested split count does not
      exceed the grid's. */
  lemma {:induction false} SplitsReach(len: nat, splits: nat, max: nat)
    requires 1 <= splits <= max
    ensures PerSplit(len, splits) * max >= len
    ensures len > 0 ==> PerSplit(len, splits) > 0
  {
    var c := CeilDiv(len, splits);
    CeilDivBounds(len, splits);
    CeilDivBounds(c, MIN_BLOCK_KV);
    MulMono(c, PerSplit(len, splits), splits);
    MulMono(splits, max, PerSplit(len, splits));
  }

  /** Every position below len lies in exactly one split range, and that split is inside the grid
      exactly when the grid reaches the position. */
  lemma {:induction false} SplitsPartition(per: nat, len: nat, max: nat, n: nat, id: nat)
    requires per > 0 && n < len
    ensures SplitStart(per, id) <= n < SplitEnd(per, id, len) <==> id == n / per
    ensures n / per < max <==> n < per * max
  {
    DivBelow(n, per, id);
    DivBelow(n, per, id + 1);
    DivBelow(n, per, max);
    assert per * (id + 1) == per * id + per == id * per + per;
  }

  // ---- stage 1, one program ----

  /** What stage 1 leaves in a cell: exp(lse) is the range's total weight and the row its
      normalised weighted sum. */
  ghost predicate Partial(E: ExpLog, row: seq<real>, lse: real, keys: seq<Key>) {
    && Wide(keys, |row|)
    && E.exp(lse) == SumWeights(E, keys)
    && forall d :: 0 <= d < |row| ==> Means(E, Fin(lse), row[d], SumValues(E, keys, |row|, d))
  }

  function LoadLane(keys: seq<Key>, n: nat, end: nat, dv: nat): (key: Key)
    requires end <= |keys| && Wide(keys, dv)
    ensures |key.value| == dv
  {
    if n < end then keys[n] else Key(NegInf, Zeros(dv))
  }

  /** The masked load of BLOCK_N keys from `start`: lanes at or past `end` score minus infinity and
      load zeros. */
  function LoadTile(keys: seq<Key>, start: nat, end: nat, blockN: nat, dv: nat): (tile: seq<Key>)
    requires end <= |keys| && Wide(keys, dv)
    ensures |tile| == blockN && Wide(tile, dv)
    ensures forall i :: 0 <= i < blockN ==> tile[i] == LoadLane(keys, start + i, end, dv)
  {
    var tile := seq(blockN, i requires 0 <= i < blockN => LoadLane(keys, start + i, end, dv));
    assert forall i :: 0 <= i < blockN ==> tile[i] == LoadLane(keys, start + i, end, dv);
    tile
  }

  /** The masked lanes do not count: the tile sums to the keys it covers. */
  lemma TileSums(E: ExpLog, keys: seq<Key>, start: nat, end: nat, blockN: nat, dv: nat)
    requires start < end <= |keys| && Wide(keys, dv)
    ensures var tile := LoadTile(keys, start, end, blockN, dv);
      var part := keys[start..Min(start + blockN, end)];
      && Wide(part, dv)
      && SumWeights(E, tile) == SumWeights(E, part)
      && forall d :: 0 <= d < dv ==> SumValues(E, tile, dv, d) == SumValues(E, part, dv, d)
  {
    var tile := LoadTile(keys, start, end, blockN, dv);
    var part := keys[start..Min(start + blockN, end)];
    var rest := tile[|part|..];
    assert tile == part + rest;
    SumsAppend(E, part, rest, dv);
    SumsMasked(E, rest, dv);
  }

  lemma SameSums(E: ExpLog, st: State, a: seq<Key>, b: seq<Key>)
    requires Represents(E, st, a) && Wide(b, |st.acc|)
    requires SumWeights(E, a) == SumWeights(E, b)
    requires forall d :: 0 <= d < |st.acc| ==> SumValues(E, a, |st.acc|, d) == SumValues(E, b, |st.acc|, d)
    ensures Represents(E, st, b)
  {
    forall d | 0 <= d < |st.acc| ensures Means(E, st.max, st.acc[d], SumValues(E, b, |st.acc|, d)) {
      assert Means(E, st.max, st.acc[d], SumValues(E, a, |st.acc|, d));
    }
  }

  /** One tile of the loop: the state now stands for the keys up to the tile's end. */
  lemma TileStep(E: ExpLog, st: State, keys: seq<Key>, from: nat, start: nat, end: nat, blockN: nat, dv: nat, m: real)
    requires E.Laws() && Wide(keys, dv) && |st.acc| == dv
    requires from <= start < end <= |keys|
    requires Represents(E, st, keys[from..start])
    ensures Represents(E, Step(E, st, LoadTile(keys, start, end, blockN, dv), m), keys[from..Min(start + blockN, end)])
  {
    hide Means, Step, SumWeights, ExpLog.Laws, LoadTile;
    var tile := LoadTile(keys, start, end, blockN, dv);
    var part := keys[start..Min(start + blockN, end)];
    var next := Step(E, st, tile, m);
    StepRepresents(E, st, keys[from..start], tile, m);
    TileSums(E, keys, start, end, blockN, dv);
    SumsAppend(E, keys[from..start], tile, dv);
    SumsAppend(E, keys[from..start], part, dv);
    assert keys[from..start] + part == keys[from..Min(start + blockN, end)];
    SameSums(E, next, keys[from..start] + tile, keys[from..start] + part);
  }

  /** The maximum over the loaded lanes is the maximum over the keys they cover. */
  lemma WindowMax(m: Score, before: seq<Key>, keys: seq<Key>, start: nat, end: nat, blockN: nat, dv: nat)
    requires Wide(keys, dv) && start < end <= |keys|
    requires IsMax(m, before + LoadTile(keys, start, end, blockN, dv))
    ensures IsMax(m, before + keys[start..Min(start + blockN, end)])
  {
    var both := before + LoadTile(keys, start, end, blockN, dv);
    var all := before + keys[start..Min(start + blockN, end)];
    forall i | 0 <= i < |all| ensures all[i] == both[i] {
    }
    if m.Fin? {
      var i :| 0 <= i < |both| && both[i].score == m;
      assert i < |all| && all[i].score == m;
    }
  }

  /** The running maximum after the tile is the maximum of all keys so far; every exponent the step
      forms is at most zero. */
  lemma {:induction false} TileMax(max: Score, keys: seq<Key>, from: nat, start: nat, end: nat, blockN: nat, dv: nat)
    requires Wide(keys, dv) && AllFinite(keys) && blockN > 0
    requires from <= start < end <= |keys|
    requires IsMax(max, keys[from..start])
    ensures var tile := LoadTile(keys, start, end, blockN, dv);
      var next := Higher(MaxScore(tile), max);
      && next.Fin?
      && IsMax(next, keys[from..Min(start + blockN, end)])
      && AtMost(max, next)
      && forall i :: 0 <= i < |tile| ==> AtMost(tile[i].score, next)
  {
    var tile := LoadTile(keys, start, end, blockN, dv);
    MaxScoreIsMax(tile);
    assert tile[0].score == keys[start].score;
    HigherIsMax(max, MaxScore(tile), keys[from..start], tile);
    WindowMax(Higher(MaxScore(tile), max), keys[from..start], keys, start, end, blockN, dv);
    assert keys[from..start] + keys[start..Min(start + blockN, end)] == keys[from..Min(start + blockN, end)];
  }

  lemma StatePositive(E: ExpLog, st: State, keys: seq<Key>)
    requires E.Laws() && Represents(E, st, keys) && st.max.Fin?
    requires keys != [] && keys[0].score.Fin?
    ensures st.sum > 0.0
  {
    SumWeightsSign(E, keys);
    PositiveFactor(st.sum, E.exp(st.max.value), SumWeights(E, keys));
  }

  lemma FirstFinite(keys: seq<Key>, start: nat, end: nat)
    requires AllFinite(keys) && start < end <= |keys|
    ensures keys[start..end] != [] && keys[start..end][0].score.Fin?
  {
    assert keys[start..end][0] == keys[start];
  }

  /** Storing acc / sum and max + log(sum) gives a partial of the keys the state stands for. */
  lemma PartialFromState(E: ExpLog, st: State, keys: seq<Key>, row: seq<real>, lse: real)
    requires E.Laws() && Represents(E, st, keys) && st.max.Fin? && st.sum > 0.0
    requires |row| == |st.acc| && lse == st.max.value + E.log(st.sum)
    requires forall d :: 0 <= d < |row| ==> row[d] == st.acc[d] / st.sum
    ensures Partial(E, row, lse, keys)
  {
    var e := E.exp(st.max.value);
    assert E.AddLaw(st.max.value, E.log(st.sum));
    forall d | 0 <= d < |row| ensures Means(E, Fin(lse), row[d], SumValues(E, keys, |row|, d)) {
      assert Means(E, st.max, st.acc[d], SumValues(E, keys, |st.acc|, d));
      Renormalise(st.acc[d], st.sum, e, row[d], SumValues(E, keys, |row|, d));
    }
  }

  lemma PositiveFactor(a: real, e: real, w: real)
    requires a * e == w && w > 0.0 && e > 0.0
    ensures a > 0.0
  {
  }

  lemma Renormalise(a: real, s: real, e: real, q: real, plain: real)
    requires s > 0.0 && q == a / s && a * e == plain
    ensures q * (e * s) == plain
  {
    assert q * s == a;
    assert q * (e * s) == (q * s) * e;
  }

  /** Stage 1 over one non-empty split range of one head's keys. */
  method SplitPartial(E: ExpLog, keys: seq<Key>, start: nat, end: nat, blockN: nat, dv: nat)
    returns (row: seq<real>, lse: real)
    requires E.Laws() && Wide(keys, dv) && AllFinite(keys)
    requires start < end <= |keys| && blockN > 0
    ensures |row| == dv && Partial(E, row, lse, keys[start..end])
  {
    hide Step, SumWeights, SumValues, ExpLog.Laws, LoadTile, Represents, Partial;
    var st := Initial(dv);
    NothingSeen(E, dv);
    assert keys[start..start] == [];
    var startN := start;
    while startN < end
      invariant start <= startN && |st.acc| == dv
      invariant startN > start ==> st.max.Fin?
      invariant Represents(E, st, keys[start..Min(startN, end)])
      invariant IsMax(st.max, keys[start..Min(startN, end)])
    {
      var tile := LoadTile(keys, startN, end, blockN, dv);
      var nMax := Higher(MaxScore(tile), st.max);
      TileMax(st.max, keys, start, startN, end, blockN, dv);
      TileStep(E, st, keys, start, startN, end, blockN, dv, nMax.value);
      assert AtMost(st.max, nMax) && forall i :: 0 <= i < |tile| ==> AtMost(tile[i].score, nMax);
      st := Step(E, st, tile, nMax.value);
      startN := startN + blockN;
    }
    FirstFinite(keys, start, end);
    StatePositive(E, st, keys[start..end]);
    row := seq(dv, d requires 0 <= d < dv => st.acc[d] / st.sum);
    lse := st.max.value + E.log(st.sum);
    PartialFromState(E, st, keys[start..end], row, lse);
  }

  // ---- the whole launch ----

  /** 2 * sigmoid(2x) - 1 */
  function Tanh(E: ExpLog, x: real): real
    requires E.Laws()
  {
    2.0 * (1.0 / (1.0 + E.exp(-2.0 * x))) - 1.0
  }

  function Capped(E: ExpLog, logitCap: real, qk: real): real
    requires E.Laws()
  {
    if logitCap > 0.0 then logitCap * Tanh(E, qk / logitCap) else qk
  }

  /** The tensors and scalars a decode launch is given: q is [batch][head][Lk], the buffers
      [slot][kv head][..], and kvIndices lists each batch row's slots between its kvIndptr bounds. */
  datatype Launch = Launch(
    q: seq<seq<seq<real>>>,
    kBuf: seq<seq<seq<real>>>,
    vBuf: seq<seq<seq<real>>>,
    kvIndptr: seq<nat>,
    kvIndices: seq<nat>,
    numSplits: seq<nat>,
    heads: nat,
    kvHeads: nat,
    group: nat,
    dv: nat,
    smScale: real,
    logitCap: real,
    sinks: seq<Sink>)
  {
    ghost predicate RowValid(b: nat)
      requires b < |q| && |kvIndptr| == |q| + 1 && |numSplits| == |q|
    {
      |q[b]| == heads && numSplits[b] > 0 && kvIndptr[b] <= kvIndptr[b + 1] <= |kvIndices|
    }

    ghost predicate Valid() {
      && dv > 0 && kvHeads > 0 && group > 0 && heads == group * kvHeads
      && |kvIndptr| == |q| + 1 && |numSplits| == |q| && |sinks| == heads
      && |vBuf| == |kBuf|
      && (forall b :: 0 <= b < |q| ==> RowValid(b))
      && (forall i :: 0 <= i < |kvIndices| ==> kvIndices[i] < |kBuf|)
      && (forall i :: 0 <= i < |kBuf| ==> |kBuf[i]| == kvHeads)
      && (forall i :: 0 <= i < |vBuf| ==> |vBuf[i]| == kvHeads)
      && (forall i, g :: 0 <= i < |vBuf| && 0 <= g < kvHeads ==> |vBuf[i][g]| == dv)
    }

    function Len(b: nat): nat
      requires Valid() && b < |q|
    {
      assert RowValid(b);
      kvIndptr[b + 1] - kvIndptr[b]
    }

    function Per(b: nat): nat
      requires Valid() && b < |q|
    {
      assert RowValid(b);
      PerSplit(Len(b), numSplits[b])
    }

    /** The kv head that query head h belongs to. */
    function OwnHead(h: nat): (g: nat)
      requires Valid() && h < heads
      ensures g < kvHeads && g == h / group
    {
      KvHeadInRange(group, kvHeads, PerHead, h);
      h / group
    }

    /** Position n of batch row b, scored by head h against kv head g. */
    function KeyAt(E: ExpLog, b: nat, h: nat, g: nat, n: nat): (key: Key)
      requires E.Laws() && Valid() && b < |q| && h < heads && g < kvHeads && n < Len(b)
      ensures key.score.Fin? && |key.value| == dv
    {
      assert RowValid(b);
      var loc := kvIndices[kvIndptr[b] + n];
      Key(Fin(Capped(E, logitCap, ScaledDot(q[b][h], kBuf[loc][g], smScale))), vBuf[loc][g])
    }

    /** The keys head h attends to in row b when it reads kv head g. */
    function Keys(E: ExpLog, b: nat, h: nat, g: nat): (keys: seq<Key>)
      requires E.Laws() && Valid() && b < |q| && h < heads && g < kvHeads
      ensures |keys| == Len(b) && Wide(keys, dv) && AllFinite(keys)
    {
      var keys := seq(Len(b), n requires 0 <= n < Len(b) => KeyAt(E, b, h, g, n));
      assert forall n :: 0 <= n < Len(b) ==> keys[n] == KeyAt(E, b, h, g, n);
      keys
    }
  }

  // ---- cells of the intermediate buffers ----

  /** Row index stage 1 stores to: the element offset over Lv, for a contiguous
      [batch, head, split, Lv] buffer. */
  function StoreIndex(heads: nat, max: nat, dv: nat, b: nat, h: nat, s: nat): int
    requires dv > 0
  {
    (b * (heads * max * dv) + h * (max * dv) + s * dv) / dv
  }

  /** Row index stage 2 loads from: the base and the split offset are divided separately. */
  function LoadIndex(heads: nat, max: nat, dv: nat, b: nat, h: nat, s: nat): int
    requires dv > 0
  {
    (b * (heads * max * dv) + h * (max * dv)) / dv + s * dv / dv
  }

  lemma IndexIsCell(heads: nat, max: nat, dv: nat, b: nat, h: nat, s: nat)
    requires dv > 0
    ensures StoreIndex(heads, max, dv, b, h, s) == (b * heads + h) * max + s
    ensures LoadIndex(heads, max, dv, b, h, s) == (b * heads + h) * max + s
  {
    var row := (b * heads + h) * max;
    RowOffset(max * dv, dv, heads, max, b, h);
    SumTimes(row, s, dv, row + s);
    DivExact(row + s, dv);
    DivExact(row, dv);
    DivExact(s, dv);
  }

  lemma SumTimes(a: int, b: int, x: int, sum: int)
    requires sum == a + b
    ensures sum * x == a * x + b * x
  {
  }

  lemma RowOffset(md: nat, dv: nat, heads: nat, max: nat, b: nat, h: nat)
    requires md == max * dv
    ensures (b * heads + h) * max * dv == b * (heads * max * dv) + h * md
  {
    var row := b * heads + h;
    assert row * max * dv == row * md;
    SumTimes(b * heads, h, md, row);
    assert heads * max * dv == heads * md;
    assert b * heads * md == b * (heads * md);
  }

  lemma {:induction false} CellInside(batch: nat, heads: nat, max: nat, b: nat, h: nat, s: nat)
    requires b < batch && h < heads && s < max
    ensures 0 <= (b * heads + h) * max + s < batch * heads * max
  {
    MulMono(b + 1, batch, heads);
    var r, all := b * heads + h, batch * heads;
    assert r + 1 <= all;
    MulMono(r + 1, all, max);
    assert (r + 1) * max == r * max + max;
  }

  /** Stage 2 reads exactly the cell stage 1 wrote, cells lie inside the buffer, and no two programs
      share one. */
  lemma {:induction false} CellsAgree(batch: nat, heads: nat, max: nat, dv: nat, b: nat, h: nat, s: nat, b': nat,
                                      h': nat, s': nat)
    requires dv > 0 && b < batch && h < heads && s < max && b' < batch && h' < heads && s' < max
    ensures StoreIndex(heads, max, dv, b, h, s) == LoadIndex(heads, max, dv, b, h, s)
    ensures 0 <= StoreIndex(heads, max, dv, b, h, s) < batch * heads * max
    ensures StoreIndex(heads, max, dv, b, h, s) == LoadIndex(heads, max, dv, b', h', s')
            ==> b == b' && h == h' && s == s'
  {
    IndexIsCell(heads, max, dv, b, h, s);
    IndexIsCell(heads, max, dv, b', h', s');
    CellInside(batch, heads, max, b, h, s);
    var r, r' := b * heads + h, b' * heads + h';
    if r * max + s == r' * max + s' {
      PairUnique(max, r, s, r', s');
      PairUnique(heads, b, h, b', h');
    }
  }

  /** Lane `lane` of grouped program `id` is not masked and works on query head h. */
  predicate Handles(group: nat, blockH: nat, heads: nat, id: nat, lane: nat, h: nat) {
    lane < ValidBlock(group, blockH) && h == id * ValidBlock(group, blockH) + lane && h < heads
  }

  /** Its kv head is its program's. */
  lemma HandledBy(group: nat, blockH: nat, heads: nat, id: nat, lane: nat, h: nat)
    requires group > 0 && blockH > 0 && Handles(group, blockH, heads, id, lane, h)
    ensures KvHeadOf(group, Grouped(blockH), h) == id / CeilDiv(group, blockH)
  {
    DivIs(ValidBlock(group, blockH), h, id, lane);
  }

  /** Every query head is handled by one lane of one program of the grouped grid, and by no other. */
  lemma {:induction false} HandledOnce(group: nat, blockH: nat, heads: nat, h: nat)
    requires group > 0 && blockH > 0 && h < heads
    ensures var v := ValidBlock(group, blockH);
      h / v < CeilDiv(heads, v) && h % v < blockH && Handles(group, blockH, heads, h / v, h % v, h)
    ensures forall id: nat, lane: nat :: Handles(group, blockH, heads, id, lane, h) ==>
      id == h / ValidBlock(group, blockH) && lane == h % ValidBlock(group, blockH)
  {
    var v := ValidBlock(group, blockH);
    CeilDivBounds(heads, v);
    DivBelow(h, v, CeilDiv(heads, v));
    forall id: nat, lane: nat | Handles(group, blockH, heads, id, lane, h) ensures id == h / v && lane == h % v {
      DivIs(v, h, id, lane);
    }
  }

  /** The two intermediate buffers, by row index. */
  class Mid {
    const batch: nat
    const heads: nat
    const max: nat
    const dv: nat
    const rows: array<seq<real>>
    const lse: array<real>

    constructor (batch: nat, heads: nat, max: nat, dv: nat)
      ensures this.batch == batch && this.heads == heads && this.max == max && this.dv == dv
      ensures rows.Length == lse.Length == batch * heads * max
      ensures fresh(rows) && fresh(lse)
    {
      this.batch, this.heads, this.max, this.dv := batch, heads, max, dv;
      rows := new seq<real>[batch * heads * max](_ => []);
      lse := new real[batch * heads * max];
    }

    ghost predicate Fits(c: Launch, max: nat)
    {
      && c.Valid() && batch == |c.q| && heads == c.heads && dv == c.dv && this.max == max
      && rows.Length == lse.Length == batch * heads * max
    }

    /** Cell (b, h, s) holds stage 1's result for split s, computed against kv head g. */
    ghost predicate Holds(E: ExpLog, c: Launch, b: nat, h: nat, s: nat, g: nat)
      reads rows, lse
      requires E.Laws() && Fits(c, max) && b < batch && h < heads && s < max && g < c.kvHeads
    {
      CellsAgree(batch, heads, max, dv, b, h, s, b, h, s);
      var i := StoreIndex(heads, max, dv, b, h, s);
      var start, end := SplitStart(c.Per(b), s), SplitEnd(c.Per(b), s, c.Len(b));
      start < end ==> |rows[i]| == dv && Partial(E, rows[i], lse[i], c.Keys(E, b, h, g)[start..end])
    }

    /** Every cell stage 1 has to fill holds the partial against the kv head its query head maps to. */
    ghost predicate Filled(E: ExpLog, c: Launch, mode: Mode)
      reads rows, lse
      requires E.Laws() && Fits(c, max) && mode.Ok()
    {
      forall b: nat, h: nat, s: nat :: b < batch && h < heads && s < max ==> CellHolds(E, c, mode, b, h, s)
    }

    ghost predicate CellHolds(E: ExpLog, c: Launch, mode: Mode, b: nat, h: nat, s: nat)
      reads rows, lse
      requires E.Laws() && Fits(c, max) && b < batch && h < heads && s < max && mode.Ok()
    {
      var g := KvHeadOf(c.group, mode, h);
      g < c.kvHeads && Holds(E, c, b, h, s, g)
    }

    lemma Separate(E: ExpLog, c: Launch, b: nat, h: nat, s: nat, b': nat, h': nat, s': nat)
      requires Fits(c, max) && b < batch && h < heads && s < max && b' < batch && h' < heads && s' < max
      ensures 0 <= StoreIndex(heads, max, dv, b, h, s) < rows.Length
      ensures StoreIndex(heads, max, dv, b, h, s) == StoreIndex(heads, max, dv, b', h', s') ==>
        b == b' && h == h' && s == s'
    {
      CellsAgree(batch, heads, max, dv, b, h, s, b', h', s');
      CellsAgree(batch, heads, max, dv, b', h', s', b', h', s');
    }

    /** One lane of one stage 1 program: it fills its own cell and no other. */
    method Program(E: ExpLog, c: Launch, mode: Mode, b: nat, h: nat, s: nat, g: nat, blockN: nat)
      requires E.Laws() && Fits(c, max) && mode.Ok() && blockN > 0
      requires b < batch && h < heads && s < max && g == KvHeadOf(c.group, mode, h)
      modifies rows, lse
      ensures CellHolds(E, c, mode, b, h, s)
      ensures forall b': nat, h': nat, s': nat ::
                b' < batch && h' < heads && s' < max && old(CellHolds(E, c, mode, b', h', s')) ==>
                  CellHolds(E, c, mode, b', h', s')
    {
      KvHeadInRange(c.group, c.kvHeads, mode, h);
      Separate(E, c, b, h, s, b, h, s);
      var per := c.Per(b);
      var start, end := SplitStart(per, s), SplitEnd(per, s, c.Len(b));
      if end > start {
        var row, l := SplitPartial(E, c.Keys(E, b, h, g), start, end, blockN, dv);
        var i := StoreIndex(heads, max, dv, b, h, s);
        rows[i] := row;
        lse[i] := l;
        forall b': nat, h': nat, s': nat |
            b' < batch && h' < heads && s' < max && old(CellHolds(E, c, mode, b', h', s'))
          ensures CellHolds(E, c, mode, b', h', s')
        {
          Separate(E, c, b, h, s, b', h', s');
          Separate(E, c, b', h', s', b', h', s');
        }
      }
    }

    /** The grid of `_fwd_kernel_stage1`: one program per (batch, head, split). */
    method Stage1(E: ExpLog, c: Launch, blockN: nat)
      requires E.Laws() && Fits(c, max) && blockN > 0
      modifies rows, lse
      ensures Filled(E, c, PerHead)
    {
      for b := 0 to batch
        invariant forall b': nat, h': nat, s': nat :: b' < b && h' < heads && s' < max ==>
          CellHolds(E, c, PerHead, b', h', s')
      {
        for h := 0 to heads
          invariant forall b': nat, h': nat, s': nat ::
            b' < batch && h' < heads && s' < max && (b' < b || (b' == b && h' < h)) ==>
            CellHolds(E, c, PerHead, b', h', s')
        {
          for s := 0 to max
            invariant forall b': nat, h': nat, s': nat :: b' < batch && h' < heads && s' < max
                        && (b' < b || (b' == b && (h' < h || (h' == h && s' < s))))
                        ==> CellHolds(E, c, PerHead, b', h', s')
          {
            Program(E, c, PerHead, b, h, s, h / c.group, blockN);
          }
        }
      }
    }

    /** One program of `_fwd_grouped_kernel_stage1`: the lanes of one block of query heads, all against one
        kv head; masked lanes store nothing. */
    method GroupProgram(E: ExpLog, c: Launch, blockH: nat, b: nat, id: nat, s: nat, blockN: nat)
      requires E.Laws() && Fits(c, max) && blockN > 0 && blockH > 0 && b < batch && s < max
      modifies rows, lse
      ensures var v := ValidBlock(c.group, blockH);
        forall h: nat | id * v <= h < (id + 1) * v && h < heads :: CellHolds(E, c, Grouped(blockH), b, h, s)
      ensures forall b': nat, h': nat, s': nat |
                b' < batch && h' < heads && s' < max && old(CellHolds(E, c, Grouped(blockH), b', h', s')) ::
                CellHolds(E, c, Grouped(blockH), b', h', s')
    {
      var mode := Grouped(blockH);
      var v := ValidBlock(c.group, blockH);
      hide Launch.Valid, ExpLog.Laws, KvHeadOf, CellHolds, ValidBlock;
      BlockPositive(c, blockH);
      var lo, g := id * v, id / CeilDiv(c.group, blockH);
      for lane := 0 to blockH
        invariant forall h: nat :: lo <= h < lo + v && h < lo + lane && h < heads ==> CellHolds(E, c, mode, b, h, s)
        invariant forall b': nat, h': nat, s': nat |
                    b' < batch && h' < heads && s' < max && old(CellHolds(E, c, mode, b', h', s')) ::
                    CellHolds(E, c, mode, b', h', s')
      {
        var head := lo + lane;
        if Handles(c.group, blockH, heads, id, lane, head) {
          HandledBy(c.group, blockH, heads, id, lane, head);
          Program(E, c, mode, b, head, s, g, blockN);
        }
      }
      assert (id + 1) * v == lo + v;
    }

    /** The grid of `_fwd_grouped_kernel_stage1`. */
    method GroupedStage1(E: ExpLog, c: Launch, blockH: nat, blockN: nat)
      requires E.Laws() && Fits(c, max) && blockN > 0 && blockH > 0
      modifies rows, lse
      ensures Filled(E, c, Grouped(blockH))
    {
      hide Launch.Valid, ExpLog.Laws;
      var mode := Grouped(blockH);
      var v := ValidBlock(c.group, blockH);
      assert v > 0 by {
        BlockPositive(c, blockH);
      }
      var blocks := CeilDiv(heads, v);
      CeilDivBounds(heads, v);
      for b := 0 to batch
        invariant forall b': nat, h': nat, s': nat :: b' < b && h' < heads && s' < max ==>
          CellHolds(E, c, mode, b', h', s')
      {
        for id := 0 to blocks
          invariant forall b': nat, h': nat, s': nat ::
            b' < batch && h' < heads && s' < max && (b' < b || (b' == b && h' < id * v)) ==>
            CellHolds(E, c, mode, b', h', s')
        {
          var lo := id * v;
          assert (id + 1) * v == lo + v;
          for s := 0 to max
            invariant forall b': nat, h': nat, s': nat |
                        && b' < batch && h' < heads && s' < max
                        && (b' < b || (b' == b && (h' < lo || (h' < lo + v && s' < s)))) ::
                        CellHolds(E, c, mode, b', h', s')
          {
            GroupProgram(E, c, blockH, b, id, s, blockN);
          }
        }
      }
    }

    static lemma BlockPositive(c: Launch, blockH: nat)
      requires c.Valid() && blockH > 0
      ensures c.group > 0 && CeilDiv(c.group, blockH) > 0 && 0 < ValidBlock(c.group, blockH) <= blockH
    {
    }

    /** Stage 2 for one (batch, head): merge the cells of the non-empty splits, add the sink to the
        denominator, divide. */
    method Merge(E: ExpLog, c: Launch, mode: Mode, b: nat, h: nat) returns (row: seq<Element>)
      requires E.Laws() && Fits(c, max) && mode.Ok() && Filled(E, c, mode) && b < batch && h < heads
      ensures |row| == dv
      ensures forall d :: 0 <= d < dv ==> row[d] == DecodeSpec(E, c, mode, max, b, h, d)
    {
      hide Means, Step, SumWeights, SumValues, ExpLog.Laws, Attention, Finish, Represents, KvHeadOf, Launch.Keys;
      KvHeadInRange(c.group, c.kvHeads, mode, h);
      ghost var keys := c.Keys(E, b, h, KvHeadOf(c.group, mode, h));
      var st := Initial(dv);
      NothingSeen(E, dv);
      assert keys[..0] == [];
      var per, len := c.Per(b), c.Len(b);
      for s := 0 to max
        invariant |st.acc| == dv
        invariant Represents(E, st, keys[..Covered(per, s, len)])
      {
        var start, end := SplitStart(per, s), SplitEnd(per, s, len);
        assert per * (s + 1) == start + per;
        if end > start {
          CellsAgree(batch, heads, max, dv, b, h, s, b, h, s);
          assert CellHolds(E, c, mode, b, h, s);
          var i := LoadIndex(heads, max, dv, b, h, s);
          var tile := [Key(Fin(lse[i]), rows[i])];
          var nMax := Higher(Fin(lse[i]), st.max);
          assert AtMost(st.max, nMax) && AtMost(Fin(lse[i]), nMax);
          PartialIsKey(E, st, keys, start, end, rows[i], lse[i], nMax.value);
          st := Step(E, st, tile, nMax.value);
        }
      }
      var sink := c.sinks[h];
      row := seq(dv, d requires 0 <= d < dv => Finish(E, st, sink, d));
      forall d | 0 <= d < dv ensures row[d] == DecodeSpec(E, c, mode, max, b, h, d) {
        FinishIsAttention(E, st, keys[..Covered(per, max, len)], sink, d);
      }
    }

    /** The grid of `_fwd_kernel_stage2`: one program per (batch, head). */
    method Stage2(E: ExpLog, c: Launch, mode: Mode, o: array2<seq<Element>>)
      requires E.Laws() && Fits(c, max) && mode.Ok() && Filled(E, c, mode)
      requires o.Length0 == batch && o.Length1 == heads
      modifies o
      ensures Decoded(E, c, mode, max, o)
    {
      for b := 0 to batch
        invariant Fits(c, max) && Filled(E, c, mode)
        invariant forall b', h' :: 0 <= b' < b && 0 <= h' < heads ==> RowDecoded(E, c, mode, max, b', h', o[b', h'])
      {
        for h := 0 to heads
          invariant Fits(c, max) && Filled(E, c, mode)
          invariant forall b', h' :: 0 <= b' < batch && 0 <= h' < heads && (b' < b || (b' == b && h' < h))
                      ==> RowDecoded(E, c, mode, max, b', h', o[b', h'])
        {
          var row := Merge(E, c, mode, b, h);
          o[b, h] := row;
        }
      }
    }
  }

  // ---- what the launch computes ----

  /** Plain attention of head h over the positions the grid reaches, reading its kv head, with the
      head's sink in the denominator once. */
  function DecodeSpec(E: ExpLog, c: Launch, mode: Mode, max: nat, b: nat, h: nat, d: nat): Element
    requires E.Laws() && c.Valid() && mode.Ok() && b < |c.q| && h < c.heads && d < c.dv
  {
    KvHeadInRange(c.group, c.kvHeads, mode, h);
    var keys := c.Keys(E, b, h, KvHeadOf(c.group, mode, h));
    Attention(E, keys[..Covered(c.Per(b), max, c.Len(b))], c.dv, d, c.sinks[h])
  }

  ghost predicate RowDecoded(E: ExpLog, c: Launch, mode: Mode, max: nat, b: nat, h: nat, row: seq<Element>)
    requires E.Laws() && c.Valid() && mode.Ok() && b < |c.q| && h < c.heads
  {
    |row| == c.dv && forall d :: 0 <= d < c.dv ==> row[d] == DecodeSpec(E, c, mode, max, b, h, d)
  }

  ghost predicate Decoded(E: ExpLog, c: Launch, mode: Mode, max: nat, o: array2<seq<Element>>)
    reads o
    requires E.Laws() && c.Valid() && mode.Ok() && o.Length0 == |c.q| && o.Length1 == c.heads
  {
    forall b, h :: 0 <= b < |c.q| && 0 <= h < c.heads ==> RowDecoded(E, c, mode, max, b, h, o[b, h])
  }

  lemma PartialKeySums(E: ExpLog, keys: seq<Key>, row: seq<real>, lse: real)
    requires Partial(E, row, lse, keys)
    ensures var tile := [Key(Fin(lse), row)];
      && SumWeights(E, tile) == SumWeights(E, keys)
      && forall d :: 0 <= d < |row| ==> SumValues(E, tile, |row|, d) == SumValues(E, keys, |row|, d)
  {
    var tile := [Key(Fin(lse), row)];
    OneKey(E, tile[0], |row|);
    forall d | 0 <= d < |row| ensures SumValues(E, tile, |row|, d) == SumValues(E, keys, |row|, d) {
      assert Means(E, Fin(lse), row[d], SumValues(E, keys, |row|, d));
    }
  }

  /** The split's partial, taken as one key scored by its log-sum-exp, counts for its whole range. */
  lemma {:induction false} PartialIsKey(E: ExpLog, st: State, keys: seq<Key>, start: nat, end: nat, row: seq<real>,
                                        lse: real, m: real)
    requires E.Laws() && start < end <= |keys| && |row| == |st.acc|
    requires Wide(keys, |st.acc|) && Represents(E, st, keys[..start])
    requires Partial(E, row, lse, keys[start..end])
    ensures Represents(E, Step(E, st, [Key(Fin(lse), row)], m), keys[..end])
  {
    hide Means, Step, Partial;
    var dv := |st.acc|;
    var tile := [Key(Fin(lse), row)];
    StepRepresents(E, st, keys[..start], tile, m);
    SumsAppend(E, keys[..start], tile, dv);
    SumsAppend(E, keys[..start], keys[start..end], dv);
    assert keys[..start] + keys[start..end] == keys[..end];
    PartialKeySums(E, keys[start..end], row, lse);
    SameSums(E, Step(E, st, tile, m), keys[..start] + tile, keys[..end]);
  }

  lemma OneKey(E: ExpLog, key: Key, dv: nat)
    requires |key.value| == dv
    ensures SumWeights(E, [key]) == E.Weight(key.score)
    ensures forall d :: 0 <= d < dv ==> SumValues(E, [key], dv, d) == E.Weight(key.score) * key.value[d]
  {
  }

  /** `decode_attention_fwd`: one kv head per query head takes the per-head kernel with tiles of 64,
      anything else the grouped kernel with blocks of 16 heads and tiles of 32. */
  method DecodeAttention(E: ExpLog, c: Launch, max: nat, o: array2<seq<Element>>)
    requires E.Laws() && c.Valid() && o.Length0 == |c.q| && o.Length1 == c.heads
    modifies o
    ensures Decoded(E, c, if c.group == 1 then PerHead else Grouped(16), max, o)
  {
    var mid := new Mid(|c.q|, c.heads, max, c.dv);
    if c.group == 1 {
      mid.Stage1(E, c, 64);
      mid.Stage2(E, c, PerHead, o);
    } else {
      mid.GroupedStage1(E, c, 16, 32);
      mid.Stage2(E, c, Grouped(16), o);
    }
  }

  /** When the grid's splits reach the end of the sequence - they do for all split counts up to the grid's,
      by `SplitsReach` - and the blocks respect the head groups, the launch is plain attention of every head
      over its whole sequence. */
  lemma {:induction false} DecodeIsAttention(E: ExpLog, c: Launch, mode: Mode, max: nat, b: nat, h: nat, d: nat)
    requires E.Laws() && c.Valid() && mode.Ok() && b < |c.q| && h < c.heads && d < c.dv
    requires c.Per(b) * max >= c.Len(b)
    requires mode.PerHead? || c.group <= mode.blockH || c.group % mode.blockH == 0 || c.kvHeads == 1
    ensures DecodeSpec(E, c, mode, max, b, h, d) == WholeRow(E, c, b, h, d)
    ensures WholeRow(E, c, b, h, d).NaN? <==> c.Len(b) == 0 && c.sinks[h].NoSink?
  {
    hide Attention, Launch.Keys, KvHeadOf;
    if mode.Grouped? {
      BlocksFitGroups(c.group, c.kvHeads, mode.blockH, h);
    }
    OwnHeadIs(c, mode, h);
    assert c.RowValid(b);
    var keys := c.Keys(E, b, h, c.OwnHead(h));
    assert keys[..Covered(c.Per(b), max, c.Len(b))] == keys;
    WholeRowDefined(E, keys, c.dv, d, c.sinks[h]);
  }

  /** Plain attention of head h over the whole sequence against its own kv head. */
  function WholeRow(E: ExpLog, c: Launch, b: nat, h: nat, d: nat): Element
    requires E.Laws() && c.Valid() && b < |c.q| && h < c.heads && d < c.dv
  {
    Attention(E, c.Keys(E, b, h, c.OwnHead(h)), c.dv, d, c.sinks[h])
  }

  lemma OwnHeadIs(c: Launch, mode: Mode, h: nat)
    requires c.Valid() && mode.Ok() && h < c.heads
    requires mode.Grouped? ==> KvHeadOf(c.group, mode, h) == h / c.group
    ensures KvHeadOf(c.group, mode, h) == c.OwnHead(h)
  {
  }

  lemma WholeRowDefined(E: ExpLog, keys: seq<Key>, dv: nat, d: nat, sink: Sink)
    requires E.Laws() && Wide(keys, dv) && AllFinite(keys) && d < dv
    ensures Attention(E, keys, dv, d, sink).NaN? <==> keys == [] && sink.NoSink?
  {
    SumWeightsSign(E, keys);
    if keys != [] {
      assert keys[0].score.Fin?;
    }
  }
}
