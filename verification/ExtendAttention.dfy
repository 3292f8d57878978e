/** Extend (chunked prefill) attention: each program handles a block of query rows of one head,
    first against the cached prefix, then against the new keys, sharing one running softmax state
    per row. Custom masks are not modelled. */
module ExtendAttention {
  import opened IndexArith
  import opened Softmax
  import SplitDecode
  import opened Vectors

  /** The score a row whose tile is fully masked takes as its maximum. */
  const STAND_IN_MAX: real := -100000000000000000000.0

  datatype Launch = Launch(
    q: seq<seq<seq<real>>>,       // [new token][head][Lq]
    kExtend: seq<seq<seq<real>>>, // [new token][kv head][Lq]
    vExtend: seq<seq<seq<real>>>, // [new token][kv head][Lv]
    kBuf: seq<seq<seq<real>>>,    // [slot][kv head][Lq]
    vBuf: seq<seq<seq<real>>>,    // [slot][kv head][Lv]
    qoIndptr: seq<nat>,
    kvIndptr: seq<nat>,
    kvIndices: seq<nat>,
    heads: nat,
    kvHeads: nat,
    group: nat,
    dv: nat,
    window: int,
    causal: bool,
    smScale: real,
    logitCap: real,
    sinks: seq<Sink>,
    blockM: nat,
    blockN: nat)
  {
    ghost predicate SeqValid(i: nat)
      requires i + 1 < |qoIndptr| && i + 1 < |kvIndptr|
    {
      && qoIndptr[i] <= qoIndptr[i + 1] <= |q|
      && kvIndptr[i] <= kvIndptr[i + 1] <= |kvIndices|
    }

    /** Requests own consecutive, non-overlapping runs of the new tokens. */
    ghost predicate Ordered() {
      forall i, j :: 0 <= i < j < |qoIndptr| ==> qoIndptr[i] <= qoIndptr[j]
    }

    ghost predicate Valid() {
      && dv > 0 && kvHeads > 0 && group > 0 && heads == group * kvHeads && blockM > 0 && blockN > 0
      && |qoIndptr| == |kvIndptr| > 0 && |sinks| == heads
      && |kExtend| == |vExtend| == |q| && |vBuf| == |kBuf|
      && Ordered()
      && (forall i :: 0 <= i < Batch() ==> SeqValid(i))
      && (forall i :: 0 <= i < |kvIndices| ==> kvIndices[i] < |kBuf|)
      && (forall i :: 0 <= i < |q| ==> |q[i]| == heads)
      && (forall i :: 0 <= i < |kExtend| ==> |kExtend[i]| == kvHeads)
      && (forall i :: 0 <= i < |vExtend| ==> |vExtend[i]| == kvHeads)
      && (forall i, g :: 0 <= i < |vExtend| && 0 <= g < kvHeads ==> |vExtend[i][g]| == dv)
      && (forall i :: 0 <= i < |kBuf| ==> |kBuf[i]| == kvHeads)
      && (forall i :: 0 <= i < |vBuf| ==> |vBuf[i]| == kvHeads)
      && (forall i, g :: 0 <= i < |vBuf| && 0 <= g < kvHeads ==> |vBuf[i][g]| == dv)
    }

    function Batch(): nat
      requires |qoIndptr| > 0
    {
      |qoIndptr| - 1
    }

    function ExtendLen(i: nat): nat
      requires Valid() && i < Batch()
    {
      assert SeqValid(i);
      qoIndptr[i + 1] - qoIndptr[i]
    }

    function PrefixLen(i: nat): nat
      requires Valid() && i < Batch()
    {
      assert SeqValid(i);
      kvIndptr[i + 1] - kvIndptr[i]
    }

    /** The definition of the mask, on absolute positions: query row `row` of request i sits at
        PrefixLen + row. */
    predicate Allowed(i: nat, row: nat, pos: nat)
      requires Valid() && i < Batch()
    {
      var at := PrefixLen(i) + row;
      (causal ==> pos <= at) && (window > 0 ==> at <= pos + window)
    }

    function Score(E: ExpLog, i: nat, h: nat, row: nat, k: seq<real>): real
      requires E.Laws() && Valid() && i < Batch() && h < heads && row < ExtendLen(i)
    {
      assert SeqValid(i);
      SplitDecode.Capped(E, logitCap, ScaledDot(q[qoIndptr[i] + row][h], k, smScale))
    }

    /** Prefix position n, as head h of a row sees it when `allowed`. */
    function PrefixKey(E: ExpLog, i: nat, h: nat, row: nat, n: nat, allowed: bool): (key: Key)
      requires E.Laws() && Valid() && i < Batch() && h < heads && row < ExtendLen(i) && n < PrefixLen(i)
      ensures |key.value| == dv
    {
      assert SeqValid(i);
      DivBelow(h, group, kvHeads);
      var loc, g := kvIndices[kvIndptr[i] + n], h / group;
      Key(if allowed then Fin(Score(E, i, h, row, kBuf[loc][g])) else NegInf, vBuf[loc][g])
    }

    /** New token n, as head h of a row sees it when `allowed`. */
    function ExtendKey(E: ExpLog, i: nat, h: nat, row: nat, n: nat, allowed: bool): (key: Key)
      requires E.Laws() && Valid() && i < Batch() && h < heads && row < ExtendLen(i) && n < ExtendLen(i)
      ensures |key.value| == dv
    {
      assert SeqValid(i);
      DivBelow(h, group, kvHeads);
      var loc, g := qoIndptr[i] + n, h / group;
      Key(if allowed then Fin(Score(E, i, h, row, kExtend[loc][g])) else NegInf, vExtend[loc][g])
    }

    function KeyAt(E: ExpLog, i: nat, h: nat, row: nat, pos: nat): (key: Key)
      requires E.Laws() && Valid() && i < Batch() && h < heads && row < ExtendLen(i)
      requires pos < PrefixLen(i) + ExtendLen(i)
      ensures |key.value| == dv
    {
      if pos < PrefixLen(i) then PrefixKey(E, i, h, row, pos, Allowed(i, row, pos))
      else ExtendKey(E, i, h, row, pos - PrefixLen(i), Allowed(i, row, pos))
    }

    /** Prefix ++ new tokens, with the positions the mask hides scored minus infinity. */
    function Keys(E: ExpLog, i: nat, h: nat, row: nat): (keys: seq<Key>)
      requires E.Laws() && Valid() && i < Batch() && h < heads && row < ExtendLen(i)
      ensures |keys| == PrefixLen(i) + ExtendLen(i) && Wide(keys, dv)
      ensures forall pos :: 0 <= pos < |keys| ==> keys[pos] == KeyAt(E, i, h, row, pos)
    {
      var keys := seq(PrefixLen(i) + ExtendLen(i),
                      pos requires 0 <= pos < PrefixLen(i) + ExtendLen(i) => KeyAt(E, i, h, row, pos));
      assert forall pos :: 0 <= pos < |keys| ==> keys[pos] == KeyAt(E, i, h, row, pos);
      keys
    }

    /** What the kernel has to compute for one row. */
    function RowSpec(E: ExpLog, i: nat, h: nat, row: nat, d: nat): Element
      requires E.Laws() && Valid() && i < Batch() && h < heads && row < ExtendLen(i) && d < dv
    {
      Attention(E, Keys(E, i, h, row), dv, d, sinks[h])
    }

    // ---- the kernel's own masks and tiles ----

    /** Stage 1: q_id <= kv_id + window, with q_id = prefix length + row. */
    predicate PrefixMask(i: nat, row: nat, n: nat)
      requires Valid() && i < Batch()
    {
      row < ExtendLen(i) && n < PrefixLen(i) && (window > 0 ==> PrefixLen(i) + row <= n + window)
    }

    function TriangleEnd(i: nat, m: nat): (end: nat)
      requires Valid() && i < Batch()
      ensures end <= ExtendLen(i)
    {
      if causal then Min(ExtendLen(i), (m + 1) * blockM) else ExtendLen(i)
    }

    /** Stage 2: both ids count from the first new token. */
    predicate TriangleMask(i: nat, m: nat, row: nat, n: nat)
      requires Valid() && i < Batch()
    {
      && row < ExtendLen(i) && n < TriangleEnd(i, m)
      && (causal ==> row >= n)
      && (window > 0 ==> row <= n + window)
    }

    function PrefixLane(E: ExpLog, i: nat, h: nat, row: nat, n: nat): (key: Key)
      requires E.Laws() && Valid() && i < Batch() && h < heads
      ensures |key.value| == dv
    {
      if row < ExtendLen(i) && n < PrefixLen(i) then PrefixKey(E, i, h, row, n, PrefixMask(i, row, n))
      else Key(NegInf, Zeros(dv))
    }

    function TriangleLane(E: ExpLog, i: nat, h: nat, m: nat, row: nat, n: nat): (key: Key)
      requires E.Laws() && Valid() && i < Batch() && h < heads
      ensures |key.value| == dv
    {
      if row < ExtendLen(i) && n < TriangleEnd(i, m) then ExtendKey(E, i, h, row, n, TriangleMask(i, m, row, n))
      else Key(NegInf, Zeros(dv))
    }

    function PrefixTile(E: ExpLog, i: nat, h: nat, row: nat, start: nat): (tile: seq<Key>)
      requires E.Laws() && Valid() && i < Batch() && h < heads
      ensures |tile| == blockN && Wide(tile, dv)
      ensures forall n :: 0 <= n < blockN ==> tile[n] == PrefixLane(E, i, h, row, start + n)
    {
      var tile := seq(blockN, n requires 0 <= n < blockN => PrefixLane(E, i, h, row, start + n));
      assert forall n :: 0 <= n < blockN ==> tile[n] == PrefixLane(E, i, h, row, start + n);
      tile
    }

    function TriangleTile(E: ExpLog, i: nat, h: nat, m: nat, row: nat, start: nat): (tile: seq<Key>)
      requires E.Laws() && Valid() && i < Batch() && h < heads
      ensures |tile| == blockN && Wide(tile, dv)
      ensures forall n :: 0 <= n < blockN ==> tile[n] == TriangleLane(E, i, h, m, row, start + n)
    {
      var tile := seq(blockN, n requires 0 <= n < blockN => TriangleLane(E, i, h, m, row, start + n));
      assert forall n :: 0 <= n < blockN ==> tile[n] == TriangleLane(E, i, h, m, row, start + n);
      tile
    }

    /** Tiles are only skipped when a window is set, and then when no lane of any row is unmasked. */
    predicate SkipPrefix(i: nat, m: nat, start: nat)
      requires Valid() && i < Batch()
    {
      window > 0 && forall row: nat, n: nat :: m * blockM <= row < (m + 1) * blockM && start <= n < start + blockN ==>
        !PrefixMask(i, row, n)
    }

    predicate SkipTriangle(i: nat, m: nat, start: nat)
      requires Valid() && i < Batch()
    {
      window > 0 && forall row: nat, n: nat :: m * blockM <= row < (m + 1) * blockM && start <= n < start + blockN ==>
        !TriangleMask(i, m, row, n)
    }
  }

  /** Both stages' masks are the one mask, and their tiles are windows on the masked key list. */
  lemma {:induction false} TilesAreWindows(E: ExpLog, c: Launch, i: nat, h: nat, m: nat, row: nat, start: nat)
    requires E.Laws() && c.Valid() && i < c.Batch() && h < c.heads
    requires m * c.blockM <= row < (m + 1) * c.blockM && row < c.ExtendLen(i)
    ensures var keys, p := c.Keys(E, i, h, row), c.PrefixLen(i);
      && c.PrefixTile(E, i, h, row, start) == SplitDecode.LoadTile(keys, start, p, c.blockN, c.dv)
      && c.TriangleTile(E, i, h, m, row, start)
         == SplitDecode.LoadTile(keys, p + start, p + c.TriangleEnd(i, m), c.blockN, c.dv)
  {
    var keys, p := c.Keys(E, i, h, row), c.PrefixLen(i);
    var x := SplitDecode.LoadTile(keys, start, p, c.blockN, c.dv);
    forall n | 0 <= n < c.blockN ensures c.PrefixTile(E, i, h, row, start)[n] == x[n] {
      if start + n < p {
        assert c.PrefixMask(i, row, start + n) == c.Allowed(i, row, start + n);
      }
    }
    var y := SplitDecode.LoadTile(keys, p + start, p + c.TriangleEnd(i, m), c.blockN, c.dv);
    forall n | 0 <= n < c.blockN ensures c.TriangleTile(E, i, h, m, row, start)[n] == y[n] {
      if start + n < c.TriangleEnd(i, m) {
        assert c.TriangleMask(i, m, row, start + n) == c.Allowed(i, row, p + start + n);
        assert keys[p + start + n] == c.KeyAt(E, i, h, row, p + start + n);
      }
    }
  }

  // ---- one row's step ----

  function FixedMax(rowMax: Score): Score {
    if rowMax.NegInf? then Fin(STAND_IN_MAX) else rowMax
  }

  /** The new running maximum: always finite, because a fully masked row uses the stand-in. */
  function NextMax(tile: seq<Key>, eMax: Score): (m: Score)
    ensures m.Fin?
  {
    Higher(FixedMax(MaxScore(tile)), eMax)
  }

  function RowStep(E: ExpLog, st: State, tile: seq<Key>): State
    requires Wide(tile, |st.acc|)
  {
    Step(E, st, tile, NextMax(tile, st.max).value)
  }

  /** No exponent a step forms is positive. */
  lemma NextMaxDominates(tile: seq<Key>, eMax: Score)
    ensures AtMost(eMax, NextMax(tile, eMax))
    ensures forall n :: 0 <= n < |tile| ==> AtMost(tile[n].score, NextMax(tile, eMax))
  {
    MaxScoreIsMax(tile);
  }

  /** Adding keys that the mask hides changes nothing. */
  lemma HiddenKeys(E: ExpLog, st: State, keys: seq<Key>, a: nat, b: nat)
    requires a <= b <= |keys| && Wide(keys, |st.acc|) && Represents(E, st, keys[..a])
    requires forall n :: a <= n < b ==> keys[n].score.NegInf?
    ensures Represents(E, st, keys[..b])
  {
    SumsAppend(E, keys[..a], keys[a..b], |st.acc|);
    SumsMasked(E, keys[a..b], |st.acc|);
    assert keys[..a] + keys[a..b] == keys[..b];
    SplitDecode.SameSums(E, st, keys[..a], keys[..b]);
  }

  // ---- one program ----

  predicate Sized(c: Launch, rows: seq<State>) {
    |rows| == c.blockM && forall r :: 0 <= r < c.blockM ==> |rows[r].acc| == c.dv
  }

  /** Row r of the block stands for the first `reach` positions. */
  ghost predicate BlockAt(E: ExpLog, c: Launch, i: nat, h: nat, m: nat, rows: seq<State>, reach: nat)
    requires E.Laws() && c.Valid() && i < c.Batch() && h < c.heads
    requires reach <= c.PrefixLen(i) + c.ExtendLen(i)
  {
    && Sized(c, rows)
    && (forall r: nat :: r < c.blockM && m * c.blockM + r < c.ExtendLen(i)
          ==> Represents(E, rows[r], c.Keys(E, i, h, m * c.blockM + r)[..reach]))
  }

  /** One tile against every row of the block at once. */
  function StepRows(E: ExpLog, rows: seq<State>, tiles: seq<seq<Key>>, dv: nat): (next: seq<State>)
    requires |tiles| == |rows|
    requires forall r :: 0 <= r < |rows| ==> |rows[r].acc| == dv && Wide(tiles[r], dv)
    ensures |next| == |rows|
    ensures forall r :: 0 <= r < |rows| ==> next[r] == RowStep(E, rows[r], tiles[r]) && |next[r].acc| == dv
  {
    var next := seq(|rows|, r requires 0 <= r < |rows| => RowStep(E, rows[r], tiles[r]));
    assert forall r :: 0 <= r < |rows| ==> next[r] == RowStep(E, rows[r], tiles[r]);
    next
  }

  lemma RowOf(m: nat, blockM: nat, r: nat)
    requires r < blockM
    ensures m * blockM <= m * blockM + r < (m + 1) * blockM
  {
  }

  /** Both stages: a tile of the window [start, end) of the key list takes every row from `at` to the
      tile's end. */
  lemma {:induction false} RowTile(E: ExpLog, c: Launch, i: nat, h: nat, row: nat, st: State, at: nat, end: nat)
    requires E.Laws() && c.Valid() && i < c.Batch() && h < c.heads && row < c.ExtendLen(i)
    requires |st.acc| == c.dv && at < end <= c.PrefixLen(i) + c.ExtendLen(i)
    requires Represents(E, st, c.Keys(E, i, h, row)[..at])
    ensures Represents(E, RowStep(E, st, SplitDecode.LoadTile(c.Keys(E, i, h, row), at, end, c.blockN, c.dv)),
                       c.Keys(E, i, h, row)[..Min(at + c.blockN, end)])
  {
    hide Represents, Step, Launch.Valid, Launch.ExtendLen, Launch.PrefixLen, Launch.Keys, SplitDecode.LoadTile,
        ExpLog.Laws;
    var keys := c.Keys(E, i, h, row);
    var tile := SplitDecode.LoadTile(keys, at, end, c.blockN, c.dv);
    assert keys[0..at] == keys[..at];
    SplitDecode.TileStep(E, st, keys, 0, at, end, c.blockN, c.dv, NextMax(tile, st.max).value);
    assert keys[0..Min(at + c.blockN, end)] == keys[..Min(at + c.blockN, end)];
  }

  lemma {:induction false} SkippedPrefix(E: ExpLog, c: Launch, i: nat, h: nat, m: nat, row: nat, st: State, start: nat)
    requires E.Laws() && c.Valid() && i < c.Batch() && h < c.heads
    requires m * c.blockM <= row < (m + 1) * c.blockM && row < c.ExtendLen(i)
    requires start < c.PrefixLen(i) && c.SkipPrefix(i, m, start)
    requires |st.acc| == c.dv && Represents(E, st, c.Keys(E, i, h, row)[..start])
    ensures Represents(E, st, c.Keys(E, i, h, row)[..Min(start + c.blockN, c.PrefixLen(i))])
  {
    var keys := c.Keys(E, i, h, row);
    var b := Min(start + c.blockN, c.PrefixLen(i));
    forall n | start <= n < b ensures keys[n].score.NegInf? {
      assert !c.PrefixMask(i, row, n);
    }
    HiddenKeys(E, st, keys, start, b);
  }

  lemma {:induction false} SkippedTriangle(E: ExpLog, c: Launch, i: nat, h: nat, m: nat, row: nat, st: State,
                                           start: nat)
    requires E.Laws() && c.Valid() && i < c.Batch() && h < c.heads
    requires m * c.blockM <= row < (m + 1) * c.blockM && row < c.ExtendLen(i)
    requires start < c.TriangleEnd(i, m) && c.SkipTriangle(i, m, start)
    requires |st.acc| == c.dv && Represents(E, st, c.Keys(E, i, h, row)[..c.PrefixLen(i) + start])
    ensures Represents(E, st, c.Keys(E, i, h, row)[..c.PrefixLen(i) + Min(start + c.blockN, c.TriangleEnd(i, m))])
  {
    var keys, p := c.Keys(E, i, h, row), c.PrefixLen(i);
    var b := p + Min(start + c.blockN, c.TriangleEnd(i, m));
    forall n | p + start <= n < b ensures keys[n].score.NegInf? {
      assert !c.TriangleMask(i, m, row, n - p);
    }
    HiddenKeys(E, st, keys, p + start, b);
  }

  /** The causal tile bound drops no allowed key. */
  lemma {:induction false} BeyondTriangle(E: ExpLog, c: Launch, i: nat, h: nat, m: nat, row: nat, st: State)
    requires E.Laws() && c.Valid() && i < c.Batch() && h < c.heads
    requires m * c.blockM <= row < (m + 1) * c.blockM && row < c.ExtendLen(i)
    requires |st.acc| == c.dv
    requires Represents(E, st, c.Keys(E, i, h, row)[..c.PrefixLen(i) + c.TriangleEnd(i, m)])
    ensures Represents(E, st, c.Keys(E, i, h, row))
  {
    var keys, b := c.Keys(E, i, h, row), c.PrefixLen(i) + c.TriangleEnd(i, m);
    forall n | b <= n < |keys| ensures keys[n].score.NegInf? {
      assert !c.Allowed(i, row, n);
    }
    HiddenKeys(E, st, keys, b, |keys|);
    assert keys[..|keys|] == keys;
  }

  function PrefixTiles(E: ExpLog, c: Launch, i: nat, h: nat, m: nat, start: nat): (tiles: seq<seq<Key>>)
    requires E.Laws() && c.Valid() && i < c.Batch() && h < c.heads
    ensures |tiles| == c.blockM
    ensures forall r :: 0 <= r < c.blockM ==>
      tiles[r] == c.PrefixTile(E, i, h, m * c.blockM + r, start) && Wide(tiles[r], c.dv)
  {
    var tiles := seq(c.blockM, r requires 0 <= r < c.blockM => c.PrefixTile(E, i, h, m * c.blockM + r, start));
    assert forall r :: 0 <= r < c.blockM ==> tiles[r] == c.PrefixTile(E, i, h, m * c.blockM + r, start);
    tiles
  }

  function TriangleTiles(E: ExpLog, c: Launch, i: nat, h: nat, m: nat, start: nat): (tiles: seq<seq<Key>>)
    requires E.Laws() && c.Valid() && i < c.Batch() && h < c.heads
    ensures |tiles| == c.blockM
    ensures forall r :: 0 <= r < c.blockM ==>
      tiles[r] == c.TriangleTile(E, i, h, m, m * c.blockM + r, start) && Wide(tiles[r], c.dv)
  {
    var tiles := seq(c.blockM, r requires 0 <= r < c.blockM => c.TriangleTile(E, i, h, m, m * c.blockM + r, start));
    assert forall r :: 0 <= r < c.blockM ==> tiles[r] == c.TriangleTile(E, i, h, m, m * c.blockM + r, start);
    tiles
  }

  /** The whole block against the prefix tile at `start`. */
  function PrefixBlock(E: ExpLog, c: Launch, i: nat, h: nat, m: nat, rows: seq<State>, start: nat): (next: seq<State>)
    requires E.Laws() && c.Valid() && i < c.Batch() && h < c.heads && Sized(c, rows)
    ensures Sized(c, next)
  {
    StepRows(E, rows, PrefixTiles(E, c, i, h, m, start), c.dv)
  }

  /** The whole block against the triangle tile at `start`. */
  function TriangleBlock(E: ExpLog, c: Launch, i: nat, h: nat, m: nat, rows: seq<State>, start: nat): (next: seq<State>)
    requires E.Laws() && c.Valid() && i < c.Batch() && h < c.heads && Sized(c, rows)
    ensures Sized(c, next)
  {
    StepRows(E, rows, TriangleTiles(E, c, i, h, m, start), c.dv)
  }

  lemma {:induction false} PrefixTileStep(E: ExpLog, c: Launch, i: nat, h: nat, m: nat, rows: seq<State>, start: nat)
    requires E.Laws() && c.Valid() && i < c.Batch() && h < c.heads
    requires start < c.PrefixLen(i) && Sized(c, rows) && BlockAt(E, c, i, h, m, rows, start)
    ensures BlockAt(E, c, i, h, m, PrefixBlock(E, c, i, h, m, rows, start),
                    Min(start + c.blockN, c.PrefixLen(i)))
    ensures c.SkipPrefix(i, m, start) ==> BlockAt(E, c, i, h, m, rows, Min(start + c.blockN, c.PrefixLen(i)))
  {
    hide Represents, RowStep, Launch.Keys, Launch.PrefixTile, Launch.TriangleTile, Launch.SkipPrefix,
        Launch.SkipTriangle, SplitDecode.LoadTile, ExpLog.Laws, Launch.Valid, Launch.ExtendLen, Launch.PrefixLen;
    forall r: nat | r < c.blockM && m * c.blockM + r < c.ExtendLen(i)
      ensures Represents(E, RowStep(E, rows[r], PrefixTiles(E, c, i, h, m, start)[r]),
                         c.Keys(E, i, h, m * c.blockM + r)[..Min(start + c.blockN, c.PrefixLen(i))])
      ensures c.SkipPrefix(i, m, start) ==>
                Represents(E, rows[r], c.Keys(E, i, h, m * c.blockM + r)[..Min(start + c.blockN, c.PrefixLen(i))])
    {
      var row := m * c.blockM + r;
      RowOf(m, c.blockM, r);
      TilesAreWindows(E, c, i, h, m, row, start);
      RowTile(E, c, i, h, row, rows[r], start, c.PrefixLen(i));
      if c.SkipPrefix(i, m, start) {
        SkippedPrefix(E, c, i, h, m, row, rows[r], start);
      }
    }
  }

  lemma {:induction false} TriangleTileStep(E: ExpLog, c: Launch, i: nat, h: nat, m: nat, rows: seq<State>, start: nat)
    requires E.Laws() && c.Valid() && i < c.Batch() && h < c.heads
    requires start < c.TriangleEnd(i, m) && Sized(c, rows) && BlockAt(E, c, i, h, m, rows, c.PrefixLen(i) + start)
    ensures BlockAt(E, c, i, h, m, TriangleBlock(E, c, i, h, m, rows, start),
                    c.PrefixLen(i) + Min(start + c.blockN, c.TriangleEnd(i, m)))
    ensures c.SkipTriangle(i, m, start) ==>
              BlockAt(E, c, i, h, m, rows, c.PrefixLen(i) + Min(start + c.blockN, c.TriangleEnd(i, m)))
  {
    hide Represents, RowStep, Launch.Keys, Launch.PrefixTile, Launch.TriangleTile, Launch.SkipPrefix,
        Launch.SkipTriangle, SplitDecode.LoadTile, ExpLog.Laws, Launch.Valid, Launch.ExtendLen, Launch.PrefixLen,
        Launch.TriangleEnd;
    var p := c.PrefixLen(i);
    forall r: nat | r < c.blockM && m * c.blockM + r < c.ExtendLen(i)
      ensures Represents(E, RowStep(E, rows[r], TriangleTiles(E, c, i, h, m, start)[r]),
                         c.Keys(E, i, h, m * c.blockM + r)[..p + Min(start + c.blockN, c.TriangleEnd(i, m))])
      ensures c.SkipTriangle(i, m, start) ==>
                Represents(E, rows[r],
                  c.Keys(E, i, h, m * c.blockM + r)[..p + Min(start + c.blockN, c.TriangleEnd(i, m))])
    {
      var row := m * c.blockM + r;
      RowOf(m, c.blockM, r);
      TilesAreWindows(E, c, i, h, m, row, start);
      RowTile(E, c, i, h, row, rows[r], p + start, p + c.TriangleEnd(i, m));
      if c.SkipTriangle(i, m, start) {
        SkippedTriangle(E, c, i, h, m, row, rows[r], start);
      }
    }
  }

  lemma TilePositive(c: Launch)
    requires c.Valid()
    ensures c.blockN > 0
  {
  }

  lemma FreshBlock(E: ExpLog, c: Launch, i: nat, h: nat, m: nat, rows: seq<State>)
    requires E.Laws() && c.Valid() && i < c.Batch() && h < c.heads
    requires |rows| == c.blockM && forall r :: 0 <= r < c.blockM ==> rows[r] == Initial(c.dv)
    ensures Sized(c, rows) && BlockAt(E, c, i, h, m, rows, 0)
  {
    NothingSeen(E, c.dv);
    forall r: nat | r < c.blockM && m * c.blockM + r < c.ExtendLen(i)
      ensures Represents(E, rows[r], c.Keys(E, i, h, m * c.blockM + r)[..0])
    {
      assert c.Keys(E, i, h, m * c.blockM + r)[..0] == [];
    }
  }

  /** Stage 1 of one program: the block against the cached prefix. */
  method PrefixStage(E: ExpLog, c: Launch, i: nat, h: nat, m: nat) returns (rows: seq<State>)
    requires E.Laws() && c.Valid() && i < c.Batch() && h < c.heads
    ensures Sized(c, rows) && BlockAt(E, c, i, h, m, rows, c.PrefixLen(i))
  {
    hide BlockAt, PrefixBlock, Sized, Launch.SkipPrefix, Launch.Valid, Launch.PrefixLen;
    TilePositive(c);
    rows := seq(c.blockM, _ => Initial(c.dv));
    FreshBlock(E, c, i, h, m, rows);
    var start := 0;
    while start < c.PrefixLen(i)
      invariant Sized(c, rows) && BlockAt(E, c, i, h, m, rows, Min(start, c.PrefixLen(i)))
    {
      PrefixTileStep(E, c, i, h, m, rows, start);
      if !c.SkipPrefix(i, m, start) {
        rows := PrefixBlock(E, c, i, h, m, rows, start);
      }
      start := start + c.blockN;
    }
  }

  /** Stage 2 of one program: the same states carried on against the new keys. */
  method TriangleStage(E: ExpLog, c: Launch, i: nat, h: nat, m: nat, prefix: seq<State>) returns (rows: seq<State>)
    requires E.Laws() && c.Valid() && i < c.Batch() && h < c.heads
    requires Sized(c, prefix) && BlockAt(E, c, i, h, m, prefix, c.PrefixLen(i))
    ensures Sized(c, rows) && BlockAt(E, c, i, h, m, rows, c.PrefixLen(i) + c.TriangleEnd(i, m))
  {
    hide BlockAt, TriangleBlock, Sized, ExpLog.Laws, Launch.ExtendLen, Launch.SkipTriangle, Launch.Valid,
        Launch.PrefixLen, Launch.TriangleEnd;
    TilePositive(c);
    rows := prefix;
    var start := 0;
    while start < c.TriangleEnd(i, m)
      invariant Sized(c, rows) && BlockAt(E, c, i, h, m, rows, c.PrefixLen(i) + Min(start, c.TriangleEnd(i, m)))
    {
      TriangleTileStep(E, c, i, h, m, rows, start);
      if !c.SkipTriangle(i, m, start) {
        rows := TriangleBlock(E, c, i, h, m, rows, start);
      }
      start := start + c.blockN;
    }
  }

  ghost predicate RowDone(E: ExpLog, c: Launch, i: nat, h: nat, row: nat, out: seq<Element>)
    requires E.Laws() && c.Valid() && i < c.Batch() && h < c.heads && row < c.ExtendLen(i)
  {
    |out| == c.dv && forall d :: 0 <= d < c.dv ==> out[d] == c.RowSpec(E, i, h, row, d)
  }

  lemma {:induction false} BlockRowDone(E: ExpLog, c: Launch, i: nat, h: nat, m: nat, rows: seq<State>, r: nat,
                                        out: seq<Element>)
    requires E.Laws() && c.Valid() && i < c.Batch() && h < c.heads
    requires r < c.blockM && m * c.blockM + r < c.ExtendLen(i)
    requires Sized(c, rows) && BlockAt(E, c, i, h, m, rows, c.PrefixLen(i) + c.TriangleEnd(i, m))
    requires out == FinishRow(E, rows[r], c.sinks[h])
    ensures RowDone(E, c, i, h, m * c.blockM + r, out)
  {
    var row := m * c.blockM + r;
    RowOf(m, c.blockM, r);
    BeyondTriangle(E, c, i, h, m, row, rows[r]);
    forall d | 0 <= d < c.dv ensures out[d] == c.RowSpec(E, i, h, row, d) {
      FinishIsAttention(E, rows[r], c.Keys(E, i, h, row), c.sinks[h], d);
    }
  }

  /** First row block m of request i stores, and the row past its last. */
  function FirstRow(c: Launch, i: nat, m: nat): nat
    requires c.Valid() && i < c.Batch()
  {
    c.qoIndptr[i] + m * c.blockM
  }

  function PastRow(c: Launch, i: nat, m: nat): nat
    requires c.Valid() && i < c.Batch()
  {
    Min(FirstRow(c, i, m) + c.blockM, c.qoIndptr[i + 1])
  }

  ghost predicate TokenDone(E: ExpLog, c: Launch, i: nat, h: nat, t: nat, out: seq<Element>)
    requires E.Laws() && c.Valid() && i < c.Batch() && h < c.heads
  {
    c.qoIndptr[i] <= t < c.qoIndptr[i] + c.ExtendLen(i) && RowDone(E, c, i, h, t - c.qoIndptr[i], out)
  }

  lemma RequestShape(c: Launch, i: nat)
    requires c.Valid() && i < c.Batch()
    ensures c.qoIndptr[i] + c.ExtendLen(i) == c.qoIndptr[i + 1] <= |c.q| && |c.sinks| == c.heads
  {
    assert c.SeqValid(i);
  }

  /** The row's division, element by element. */
  function FinishRow(E: ExpLog, st: State, sink: Sink): (out: seq<Element>)
    ensures |out| == |st.acc| && forall d :: 0 <= d < |out| ==> out[d] == Finish(E, st, sink, d)
  {
    seq(|st.acc|, d requires 0 <= d < |st.acc| => Finish(E, st, sink, d))
  }

  /** One program: block m of request i, head h. It stores the block's valid rows and nothing else. */
  method Program(E: ExpLog, c: Launch, i: nat, h: nat, m: nat, o: array2<seq<Element>>)
    requires E.Laws() && c.Valid() && i < c.Batch() && h < c.heads
    requires o.Length0 == |c.q| && o.Length1 == c.heads
    modifies o
    ensures forall t :: FirstRow(c, i, m) <= t < PastRow(c, i, m) && t < o.Length0 ==> TokenDone(E, c, i, h, t, o[t, h])
    ensures forall t, g | 0 <= t < o.Length0 && 0 <= g < o.Length1 ::
              g != h || t < FirstRow(c, i, m) || t >= PastRow(c, i, m) ==> o[t, g] == old(o[t, g])
  {
    hide BlockAt, Sized, FinishRow, RowDone, Launch.TriangleEnd, Launch.Valid, Launch.ExtendLen, Launch.PrefixLen;
    hide TokenDone, FirstRow, PastRow;
    var rows := PrefixStage(E, c, i, h, m);
    rows := TriangleStage(E, c, i, h, m, rows);
    StoreBlock(E, c, i, h, m, rows, o);
  }

  /** The masked store of the block's rows. */
  method StoreBlock(E: ExpLog, c: Launch, i: nat, h: nat, m: nat, rows: seq<State>, o: array2<seq<Element>>)
    requires E.Laws() && c.Valid() && i < c.Batch() && h < c.heads
    requires Sized(c, rows) && BlockAt(E, c, i, h, m, rows, c.PrefixLen(i) + c.TriangleEnd(i, m))
    requires o.Length0 == |c.q| && o.Length1 == c.heads
    modifies o
    ensures forall t :: FirstRow(c, i, m) <= t < PastRow(c, i, m) && t < o.Length0 ==> TokenDone(E, c, i, h, t, o[t, h])
    ensures forall t, g | 0 <= t < o.Length0 && 0 <= g < o.Length1 ::
              g != h || t < FirstRow(c, i, m) || t >= PastRow(c, i, m) ==> o[t, g] == old(o[t, g])
  {
    hide BlockAt, Sized, FinishRow, RowDone, TokenDone, FirstRow, Launch.TriangleEnd, Launch.Valid, Launch.ExtendLen,
        Launch.PrefixLen;
    RequestShape(c, i);
    var first, offset := FirstRow(c, i, m), m * c.blockM;
    BlockSize(c, rows);
    FirstIs(c, i, m);
    for r := 0 to c.blockM
      invariant forall t :: first <= t < first + r && t < c.qoIndptr[i + 1] ==> TokenDone(E, c, i, h, t, o[t, h])
      invariant forall t, g | 0 <= t < o.Length0 && 0 <= g < o.Length1 ::
                  g != h || t < first || t >= PastRow(c, i, m) ==> o[t, g] == old(o[t, g])
    {
      if offset + r < c.ExtendLen(i) {
        var out := FinishRow(E, rows[r], c.sinks[h]);
        TokenIsDone(E, c, i, h, m, rows, r, out);
        o[first + r, h] := out;
      }
    }
  }

  lemma FirstIs(c: Launch, i: nat, m: nat)
    requires c.Valid() && i < c.Batch()
    ensures FirstRow(c, i, m) == c.qoIndptr[i] + m * c.blockM
  {
  }

  lemma {:induction false} TokenIsDone(E: ExpLog, c: Launch, i: nat, h: nat, m: nat, rows: seq<State>, r: nat,
                                       out: seq<Element>)
    requires E.Laws() && c.Valid() && i < c.Batch() && h < c.heads && r < c.blockM == |rows|
    requires m * c.blockM + r < c.ExtendLen(i) && |c.sinks| == c.heads
    requires Sized(c, rows) && BlockAt(E, c, i, h, m, rows, c.PrefixLen(i) + c.TriangleEnd(i, m))
    requires out == FinishRow(E, rows[r], c.sinks[h])
    ensures TokenDone(E, c, i, h, FirstRow(c, i, m) + r, out)
  {
    hide BlockAt, Sized, FinishRow, RowDone, Launch.TriangleEnd, Launch.Valid, Launch.ExtendLen, Launch.PrefixLen;
    BlockRowDone(E, c, i, h, m, rows, r, out);
  }

  lemma BlockSize(c: Launch, rows: seq<State>)
    requires Sized(c, rows)
    ensures |rows| == c.blockM
  {
  }

  /** Every row of request i that lies in the first `blocks` row blocks is stored for head h. */
  ghost predicate HeadDone(E: ExpLog, c: Launch, i: nat, h: nat, blocks: nat, o: array2<seq<Element>>)
    reads o
    requires E.Laws() && c.Valid() && i < c.Batch() && h < c.heads
    requires o.Length0 == |c.q| && o.Length1 == c.heads
  {
    forall t :: c.qoIndptr[i] <= t < Min(FirstRow(c, i, blocks), c.qoIndptr[i + 1]) && t < o.Length0 ==>
      TokenDone(E, c, i, h, t, o[t, h])
  }

  /** What one more block adds. */
  lemma NextBlock(E: ExpLog, c: Launch, i: nat, h: nat, m: nat)
    requires c.Valid() && i < c.Batch()
    ensures PastRow(c, i, m) == Min(FirstRow(c, i, m + 1), c.qoIndptr[i + 1])
    ensures FirstRow(c, i, 0) == c.qoIndptr[i]
  {
    assert (m + 1) * c.blockM == m * c.blockM + c.blockM;
  }

  lemma Apart(c: Launch, i': nat, i: nat)
    requires c.Valid() && i' < i < c.Batch()
    ensures c.qoIndptr[i' + 1] <= c.qoIndptr[i]
  {
    if i' + 1 < i {
      assert c.Ordered();
    }
  }

  /** The launch: a grid of (request, head, row block). */
  method ExtendAttentionFwd(E: ExpLog, c: Launch, maxLenExtend: nat, o: array2<seq<Element>>)
    requires E.Laws() && c.Valid() && o.Length0 == |c.q| && o.Length1 == c.heads
    modifies o
    ensures forall i, h | 0 <= i < c.Batch() && 0 <= h < c.heads ::
      HeadDone(E, c, i, h, CeilDiv(maxLenExtend, c.blockM), o)
  {
    var blocks := CeilDiv(maxLenExtend, c.blockM);
    for i := 0 to c.Batch()
      invariant forall i', h' | 0 <= i' < i && 0 <= h' < c.heads :: HeadDone(E, c, i', h', blocks, o)
    {
      for h := 0 to c.heads
        invariant forall i', h' | 0 <= i' <= i && 0 <= h' < c.heads :: i' < i || h' < h ==>
          HeadDone(E, c, i', h', blocks, o)
      {
        NextBlock(E, c, i, h, 0);
        for m := 0 to blocks
          invariant HeadDone(E, c, i, h, m, o)
          invariant forall i', h' | 0 <= i' <= i && 0 <= h' < c.heads :: i' < i || h' < h ==>
            HeadDone(E, c, i', h', blocks, o)
        {
          label before:
          NextBlock(E, c, i, h, m);
          Program(E, c, i, h, m, o);
          forall i', h' | 0 <= i' <= i && 0 <= h' < c.heads && (i' < i || h' < h)
            ensures HeadDone(E, c, i', h', blocks, o)
          {
            assert old@before(HeadDone(E, c, i', h', blocks, o));
            if i' < i {
              Apart(c, i', i);
            }
          }
        }
      }
    }
  }

  /** The grid reaches every new token of a request no longer than max_len_extend, and without the
      reach nothing is left undefined: a row always sees its own key, so no stored value is a NaN. */
  lemma {:induction false} ExtendIsAttention(E: ExpLog, c: Launch, maxLenExtend: nat, i: nat, h: nat, row: nat, d: nat)
    requires E.Laws() && c.Valid() && i < c.Batch() && h < c.heads && d < c.dv
    requires row < c.ExtendLen(i) <= maxLenExtend
    ensures row < CeilDiv(maxLenExtend, c.blockM) * c.blockM
    ensures c.RowSpec(E, i, h, row, d).Num?
  {
    CeilDivBounds(maxLenExtend, c.blockM);
    var keys := c.Keys(E, i, h, row);
    var own := c.PrefixLen(i) + row;
    assert c.Allowed(i, row, own);
    assert keys[own].score.Fin?;
    SumWeightsSign(E, keys);
  }
}
