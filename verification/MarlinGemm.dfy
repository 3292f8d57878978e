/** W4A8 weight preparation and product: int4 weights packed, padded to the kernel's tile shape, and
    multiplied by a per-token int8 activation at the padded extents. */
module MarlinGemm {
  import opened IndexArith
  import opened Int4Pack
  import opened Rounding
  import opened TilePadding
  import opened Wrappers

  // ---- matrices ----

  ghost predicate IsMatrix<T>(m: seq<seq<T>>, rows: nat, cols: nat) {
    |m| == rows && forall r :: 0 <= r < rows ==> |m[r]| == cols
  }

  function PadRow<T>(row: seq<T>, n: nat, zero: T): (r: seq<T>)
    requires |row| <= n
    ensures |r| == n && forall i :: 0 <= i < n ==> r[i] == if i < |row| then row[i] else zero
  {
    row + seq(n - |row|, _ => zero)
  }

  /** torch pad: zero columns on the right, zero rows at the bottom. */
  function PadMatrix<T>(m: seq<seq<T>>, cols: nat, toRows: nat, toCols: nat, zero: T): (r: seq<seq<T>>)
    requires IsMatrix(m, |m|, cols) && |m| <= toRows && cols <= toCols
    ensures IsMatrix(r, toRows, toCols)
    ensures forall i, j | 0 <= i < toRows && 0 <= j < toCols ::
              r[i][j] == if i < |m| && j < cols then m[i][j] else zero
  {
    var padded := seq(|m|, i requires 0 <= i < |m| => PadRow(m[i], toCols, zero));
    assert forall i :: 0 <= i < |m| ==> padded[i] == PadRow(m[i], toCols, zero);
    padded + seq(toRows - |m|, _ => seq(toCols, _ => zero))
  }

  // ---- weights ----

  /** int4 weights [out][in] to packed words [in / 8][out]. */
  function PackMatrix(w: seq<seq<int>>, k: nat): (p: seq<seq<int>>)
    requires IsMatrix(w, |w|, k) && k % 8 == 0
    ensures IsMatrix(p, k / 8, |w|)
    ensures forall i, o | 0 <= i < k / 8 && 0 <= o < |w| :: p[i][o] == PackWord(w[o][8 * i..8 * i + 8])
  {
    var p := seq(k / 8, i requires 0 <= i < k / 8 => PackRow(w, k, i));
    assert forall i :: 0 <= i < k / 8 ==> p[i] == PackRow(w, k, i);
    p
  }

  function PackRow(w: seq<seq<int>>, k: nat, i: nat): (row: seq<int>)
    requires IsMatrix(w, |w|, k) && 8 * i + 8 <= k
    ensures |row| == |w| && forall o :: 0 <= o < |w| ==> row[o] == PackWord(w[o][8 * i..8 * i + 8])
  {
    var row := seq(|w|, o requires 0 <= o < |w| => PackWord(w[o][8 * i..8 * i + 8]));
    assert forall o :: 0 <= o < |w| ==> row[o] == PackWord(w[o][8 * i..8 * i + 8]);
    row
  }

  /** What the kernel reads at input x, output o of a packed matrix. */
  function WeightAt(p: seq<seq<int>>, cols: nat, x: nat, o: nat): int
    requires IsMatrix(p, |p|, cols) && x / 8 < |p| && o < cols
  {
    Decode(p[x / 8][o], x % 8)
  }

  ghost predicate IsInt4(w: seq<seq<int>>, k: nat) {
    IsMatrix(w, |w|, k) && forall o, x | 0 <= o < |w| && 0 <= x < k :: -8 <= w[o][x] < 8
  }

  /** Packing, padding and unpacking: the original weights where there were any, -8 in padded rows. */
  lemma {:induction false} PaddedWeight(w: seq<seq<int>>, k: nat, toN: nat, toK: nat, x: nat, o: nat)
    requires IsInt4(w, k) && k % 8 == 0 && toK % 8 == 0 && |w| <= toN && k <= toK && x < toK && o < |w|
    ensures var p := PadMatrix(PackMatrix(w, k), |w|, toK / 8, toN, 0);
      WeightAt(p, toN, x, o) == if x < k then w[o][x] else -8
  {
    if x < k {
      var i, j := x / 8, x % 8;
      PackRoundTrip(w[o][8 * i..8 * i + 8], j);
    } else {
      ZeroWordDecodes(x % 8);
    }
  }

  // ---- scales ----

  function GroupOf(x: nat, groupSize: int): nat {
    if groupSize > 0 then x / groupSize else 0
  }

  function Groups(k: nat, groupSize: int): nat {
    if groupSize > 0 then k / groupSize else 1
  }

  function RowMax(row: seq<real>): (m: real)
    ensures m >= 0.0
    ensures forall i :: 0 <= i < |row| ==> row[i] <= m
    ensures m == 0.0 || m in row
  {
    if row == [] then 0.0 else Max(RowMax(row[..|row| - 1]), row[|row| - 1])
  }

  /** s.max(), if some scale is not negative. */
  function MatrixMax(s: seq<seq<real>>): (m: real)
    ensures m >= 0.0
    ensures forall i, j | 0 <= i < |s| && 0 <= j < |s[i]| :: s[i][j] <= m
    ensures m == 0.0 || exists i, j | 0 <= i < |s| && 0 <= j < |s[i]| :: s[i][j] == m
  {
    if s == [] then 0.0
    else
      var rest := MatrixMax(s[..|s| - 1]);
      assert forall i :: 0 <= i < |s| - 1 ==> s[i] == s[..|s| - 1][i];
      Max(rest, RowMax(s[|s| - 1]))
  }

  /** round(s / max * 4096): the scale as the kernel's 16-bit code. Layers have a positive scale. */
  function ScaleCode(v: real, max: real): int {
    if max == 0.0 then 0 else HalfEven(v / max * 4096.0)
  }

  lemma CodeRange(v: real, max: real)
    requires -8.0 * max <= v <= max && max > 0.0
    ensures -32768.0 <= v / max * 4096.0 <= 4096.0
    ensures v >= 0.0 ==> 0.0 <= v / max * 4096.0
  {
    var q := v / max;
    assert q * max == v;
    SignOf(q + 8.0, max, v + 8.0 * max);
    SignOf(1.0 - q, max, max - v);
    SignOf(q, max, v);
  }

  lemma SignOf(q: real, max: real, product: real)
    requires max > 0.0 && product == q * max
    ensures product >= 0.0 ==> q >= 0.0
  {
  }

  /** A scale's code fits a signed 16-bit integer unless the scale is more than eight times as far below zero
      as the largest is above. */
  lemma ScaleCodeFits(v: real, max: real)
    requires -8.0 * max <= v <= max
    ensures -32768 <= ScaleCode(v, max) <= 4096
    ensures v >= 0.0 ==> 0 <= ScaleCode(v, max)
  {
    if max > 0.0 {
      CodeRange(v, max);
      var x := v / max * 4096.0;
      HalfEvenBounded(x, 32768);
      if x >= -4096.0 {
        HalfEvenBounded(x, 4096);
      }
    }
  }

  /** The scales' codes fit their 16 bits. */
  ghost predicate CodesFit(s: seq<seq<real>>, cols: nat) {
    IsMatrix(s, |s|, cols) && forall i, j | 0 <= i < |s| && 0 <= j < cols :: s[i][j] >= -8.0 * MatrixMax(s)
  }

  /** The largest entry. */
  ghost predicate IsMatrixMax(s: seq<seq<real>>, m: real) {
    && (forall i, j | 0 <= i < |s| && 0 <= j < |s[i]| :: s[i][j] <= m)
    && exists i, j | 0 <= i < |s| && 0 <= j < |s[i]| :: s[i][j] == m
  }

  /** Zero padding keeps the maximum the codes are relative to exactly when it is not negative or nothing is
      padded. */
  lemma {:induction false} PaddedMax(s: seq<seq<real>>, cols: nat, toRows: nat, toCols: nat, a: real, b: real)
    requires IsMatrix(s, |s|, cols) && |s| <= toRows && cols <= toCols
    requires IsMatrixMax(s, a) && IsMatrixMax(PadMatrix(s, cols, toRows, toCols, 0.0), b)
    ensures a == b <==> a >= 0.0 || (toRows == |s| && toCols == cols)
  {
    var p := PadMatrix(s, cols, toRows, toCols, 0.0);
    assert a <= b by {
      var i, j :| 0 <= i < |s| && 0 <= j < |s[i]| && s[i][j] == a;
      assert p[i][j] == a;
    }
    if toRows > |s| {
      assert p[|s|][0] == 0.0;
    } else if toCols > cols {
      assert p[0][cols] == 0.0;
    }
  }

  lemma {:induction false} PaddedMatrixMax(s: seq<seq<real>>, cols: nat, toRows: nat, toCols: nat)
    requires IsMatrix(s, |s|, cols) && |s| <= toRows && cols <= toCols
    ensures MatrixMax(PadMatrix(s, cols, toRows, toCols, 0.0)) == MatrixMax(s)
  {
    var p := PadMatrix(s, cols, toRows, toCols, 0.0);
    var a, b := MatrixMax(s), MatrixMax(p);
    assert b <= a by {
      assert forall i, j | 0 <= i < |p| && 0 <= j < |p[i]| :: p[i][j] <= a;
    }
    assert a <= b by {
      forall i, j | 0 <= i < |s| && 0 <= j < |s[i]| ensures s[i][j] <= b {
        assert p[i][j] == s[i][j];
      }
    }
  }

  // ---- activations ----

  /** per_token_quant_int8: the scale, and the codes round(x * (127 / absmax)). */
  function TokenMax(x: seq<real>): (m: real)
    ensures m > 0.0
  {
    Max(AbsMax(x), 0.0000000001)
  }

  function TokenScale(x: seq<real>): real {
    TokenMax(x) / 127.0
  }

  function TokenCode(v: real, max: real): int
    requires max > 0.0
  {
    HalfAway(v * (127.0 / max))
  }

  lemma PaddedTokenMax(x: seq<real>, n: nat)
    requires |x| <= n
    ensures TokenMax(PadRow(x, n, 0.0)) == TokenMax(x)
  {
    var p := PadRow(x, n, 0.0);
    var a, b := AbsMax(x), AbsMax(p);
    assert b <= a by {
      assert forall i :: 0 <= i < |p| ==> Abs(p[i]) <= a;
    }
    assert a <= b by {
      forall i | 0 <= i < |x| ensures Abs(x[i]) <= b {
        assert p[i] == x[i];
      }
    }
  }

  lemma PadCodeIsZero(max: real)
    requires max > 0.0
    ensures TokenCode(0.0, max) == 0
  {
    assert 0.0 * (127.0 / max) == 0.0;
  }

  // ---- the product ----

  /** The plain quantised product over inputs [0, n): codes times int4 weights times scale codes. */
  function PlainSum(x: seq<real>, w: seq<int>, s: seq<seq<real>>, o: nat, groupSize: int, n: nat): int
    requires n <= |x| && n <= |w|
    requires forall i :: 0 <= i < n ==> GroupOf(i, groupSize) < |s| && o < |s[GroupOf(i, groupSize)]|
  {
    if n == 0 then 0
    else
      PlainSum(x, w, s, o, groupSize, n - 1)
      + CodeTerm(TokenCode(x[n - 1], TokenMax(x)), w[n - 1], ScaleCode(s[GroupOf(n - 1, groupSize)][o], MatrixMax(s)))
  }

  function CodeTerm(q: int, w: int, c: int): int {
    q * w * c
  }

  /** What the kernel sums over packed words, at whatever extents it is given. */
  function KernelSum(x: seq<real>, p: seq<seq<int>>, cols: nat, codes: seq<seq<int>>, o: nat, groupSize: int,
                     n: nat): int
    requires IsMatrix(p, |p|, cols) && o < cols && n <= |x| && n <= 8 * |p|
    requires forall i :: 0 <= i < n ==> GroupOf(i, groupSize) < |codes| && o < |codes[GroupOf(i, groupSize)]|
  {
    if n == 0 then 0
    else
      KernelSum(x, p, cols, codes, o, groupSize, n - 1)
      + CodeTerm(TokenCode(x[n - 1], TokenMax(x)), WeightAt(p, cols, n - 1, o), codes[GroupOf(n - 1, groupSize)][o])
  }

  /** Codes of a whole scale matrix. */
  function CodesOf(s: seq<seq<real>>, cols: nat, max: real): (c: seq<seq<int>>)
    requires IsMatrix(s, |s|, cols)
    ensures IsMatrix(c, |s|, cols)
    ensures forall i, j | 0 <= i < |s| && 0 <= j < cols :: c[i][j] == ScaleCode(s[i][j], max)
  {
    var c := seq(|s|, i requires 0 <= i < |s| => CodeRow(s[i], max));
    assert forall i :: 0 <= i < |s| ==> c[i] == CodeRow(s[i], max);
    c
  }

  function CodeRow(row: seq<real>, max: real): (c: seq<int>)
    ensures |c| == |row| && forall j :: 0 <= j < |row| ==> c[j] == ScaleCode(row[j], max)
  {
    seq(|row|, j requires 0 <= j < |row| => ScaleCode(row[j], max))
  }

  // ---- padding preserves the product ----

  /** Rows of the scale matrix: a group wider than the layer's share of the inputs still has one. */
  function ScaleRows(k: nat, groupSize: int): nat {
    if 0 < k < groupSize then 1 else Groups(k, groupSize)
  }

  /** No group straddles the end of the inputs. */
  predicate WholeGroups(k: nat, groupSize: int) {
    0 < groupSize <= k ==> k % groupSize == 0
  }

  /** What the kernel demands of a layer: whole words, whole groups or one wider than the inputs, one scale
      row per group, scales whose codes fit. */
  ghost predicate WellShaped(w: seq<seq<int>>, s: seq<seq<real>>, b: seq<real>, n: nat, k: nat, groupSize: int) {
    && k % 8 == 0 && WholeGroups(k, groupSize)
    && |w| == n && IsInt4(w, k)
    && |s| == ScaleRows(k, groupSize) && CodesFit(s, n) && MatrixMax(s) > 0.0 && |b| == n
  }

  lemma {:induction false} PaddedShape(n: nat, k: nat, groupSize: int)
    ensures var p := PaddedNK(n, k, groupSize);
      && p.0 >= n && p.1 >= k && p.1 % 8 == 0 && (groupSize > 0 ==> p.1 % groupSize == 0)
      && Groups(p.1, groupSize) >= ScaleRows(k, groupSize)
  {
    hide PaddedNK, Groups;
    var p := PaddedNK(n, k, groupSize);
    PaddedFits(n, k, groupSize);
    GroupsMono(k, p.1, groupSize);
    if 0 < k < groupSize {
      OneGroup(p.1, groupSize);
    }
  }

  lemma {:induction false} PaddedFits(n: nat, k: nat, groupSize: int)
    ensures var p := PaddedNK(n, k, groupSize);
      p.0 >= n && p.1 >= k && p.1 % 8 == 0 && (groupSize > 0 ==> p.1 % groupSize == 0)
  {
    hide PaddedNK;
    PaddedIsMinimal(n, k, groupSize, (n, k));
    Eights(PaddedNK(n, k, groupSize).1);
  }

  lemma Eights(x: nat)
    ensures x % 64 == 0 || x % 128 == 0 ==> x % 8 == 0
  {
    if x % 64 == 0 {
      MultipleOfMultiple(x, 64, 8);
    }
    if x % 128 == 0 {
      MultipleOfMultiple(x, 128, 8);
    }
  }

  lemma {:induction false} GroupsMono(a: nat, b: nat, groupSize: int)
    requires a <= b
    ensures Groups(b, groupSize) >= Groups(a, groupSize)
  {
    if groupSize > 0 {
      DivMono(a, b, groupSize);
    }
  }

  lemma OneGroup(k: nat, groupSize: int)
    requires k > 0 && groupSize > 0 && k % groupSize == 0
    ensures Groups(k, groupSize) >= 1
  {
  }

  lemma {:induction false} DivMono(a: nat, b: nat, g: nat)
    requires g > 0 && a <= b
    ensures a / g <= b / g
  {
    DivBelow(b, g, b / g + 1);
    DivBelow(a, g, b / g + 1);
  }

  /** Every input below a whole number of groups has its scale row. */
  lemma GroupInside(k: nat, groupSize: int, x: nat)
    requires x < k && WholeGroups(k, groupSize)
    ensures GroupOf(x, groupSize) < ScaleRows(k, groupSize)
  {
    if 0 < groupSize <= k {
      assert k == k / groupSize * groupSize;
      DivBelow(x, groupSize, k / groupSize);
    }
  }

  lemma GroupsInside(k: nat, groupSize: int)
    requires WholeGroups(k, groupSize)
    ensures forall x :: 0 <= x < k ==> GroupOf(x, groupSize) < ScaleRows(k, groupSize)
  {
    forall x | 0 <= x < k ensures GroupOf(x, groupSize) < ScaleRows(k, groupSize) {
      GroupInside(k, groupSize, x);
    }
  }

  /** Output o of the unpadded, quantised layer. */
  function PlainAt(x: seq<real>, w: seq<seq<int>>, s: seq<seq<real>>, b: seq<real>, n: nat, k: nat, groupSize: int,
                   o: nat): real
    requires WellShaped(w, s, b, n, k, groupSize) && |x| == k && o < n
  {
    GroupsInside(k, groupSize);
    TokenScale(x) * (MatrixMax(s) / 4096.0) * PlainSum(x, w[o], s, o, groupSize, k) as real + b[o]
  }

  /** The result of apply_weights; multiplying the activation scale by an absent global scale raises. */
  datatype Result = TypeError | Ok(row: seq<real>)

  /** The unpadded layer: it needs more than one scale group, or there is no global scale. */
  function PlainProduct(x: seq<real>, w: seq<seq<int>>, s: seq<seq<real>>, b: seq<real>, n: nat, k: nat,
                        groupSize: int): (r: Result)
    requires WellShaped(w, s, b, n, k, groupSize) && |x| == k
    ensures r.Ok? ==> |r.row| == n && forall o :: 0 <= o < n ==> r.row[o] == PlainAt(x, w, s, b, n, k, groupSize, o)
  {
    if Groups(k, groupSize) <= 1 then TypeError
    else
      var row := seq(n, o requires 0 <= o < n => PlainAt(x, w, s, b, n, k, groupSize, o));
      assert forall o :: 0 <= o < n ==> row[o] == PlainAt(x, w, s, b, n, k, groupSize, o);
      Ok(row)
  }

  /** Over the original inputs the padded kernel sums the same terms. */
  lemma {:induction false} SumInside(x: seq<real>, xp: seq<real>, w: seq<int>, s: seq<seq<real>>,
                                     p: seq<seq<int>>, cols: nat, codes: seq<seq<int>>, o: nat, groupSize: int, n: nat)
    requires IsMatrix(p, |p|, cols) && o < cols && n <= |x| && n <= |xp| && n <= |w| && n <= 8 * |p|
    requires TokenMax(xp) == TokenMax(x)
    requires forall i :: 0 <= i < n ==> GroupOf(i, groupSize) < |s| && o < |s[GroupOf(i, groupSize)]|
    requires forall i :: 0 <= i < n ==> GroupOf(i, groupSize) < |codes| && o < |codes[GroupOf(i, groupSize)]|
    requires forall i :: 0 <= i < n ==> xp[i] == x[i] && WeightAt(p, cols, i, o) == w[i]
    requires forall i :: 0 <= i < n ==>
               codes[GroupOf(i, groupSize)][o] == ScaleCode(s[GroupOf(i, groupSize)][o], MatrixMax(s))
    ensures KernelSum(xp, p, cols, codes, o, groupSize, n) == PlainSum(x, w, s, o, groupSize, n)
  {
    hide TokenMax, WeightAt, GroupOf, TokenCode, ScaleCode, MatrixMax;
    if n > 0 {
      SumInside(x, xp, w, s, p, cols, codes, o, groupSize, n - 1);
    }
  }

  lemma ZeroTerm(a: int, b: int, c: int)
    requires a == 0
    ensures CodeTerm(a, b, c) == 0
  {
  }

  /** Padded inputs carry code 0, so they add nothing - although their weights decode to -8. */
  lemma {:induction false} SumBeyond(xp: seq<real>, p: seq<seq<int>>, cols: nat, codes: seq<seq<int>>, o: nat,
                                     groupSize: int, k: nat, n: nat)
    requires IsMatrix(p, |p|, cols) && o < cols && k <= n <= |xp| && n <= 8 * |p|
    requires forall i :: 0 <= i < n ==> GroupOf(i, groupSize) < |codes| && o < |codes[GroupOf(i, groupSize)]|
    requires forall i :: k <= i < n ==> xp[i] == 0.0
    ensures KernelSum(xp, p, cols, codes, o, groupSize, n) == KernelSum(xp, p, cols, codes, o, groupSize, k)
  {
    hide TokenMax, TokenCode, WeightAt, GroupOf;
    if n > k {
      SumBeyond(xp, p, cols, codes, o, groupSize, k, n - 1);
      PadCodeIsZero(TokenMax(xp));
      ZeroTerm(TokenCode(xp[n - 1], TokenMax(xp)), WeightAt(p, cols, n - 1, o), codes[GroupOf(n - 1, groupSize)][o]);
    }
  }

  /** The padded extents a layer of this shape may be prepared for. */
  ghost predicate Extents(n: nat, k: nat, groupSize: int, toN: nat, toK: nat) {
    && toN >= n && toK >= k && toK % 8 == 0 && (groupSize > 0 ==> toK % groupSize == 0)
    && Groups(toK, groupSize) >= ScaleRows(k, groupSize)
  }

  /** The weight the kernel gets: packed, zero-padded. */
  function PreparedWeight(w: seq<seq<int>>, k: nat, toN: nat, toK: nat): (p: seq<seq<int>>)
    requires IsInt4(w, k) && k % 8 == 0 && |w| <= toN && k <= toK && toK % 8 == 0
    ensures IsMatrix(p, toK / 8, toN)
  {
    PadMatrix(PackMatrix(w, k), |w|, toK / 8, toN, 0)
  }

  /** The scales the kernel gets: zero-padded, then turned into codes of their common maximum. */
  function PreparedScales(s: seq<seq<real>>, n: nat, toN: nat, toRows: nat): (c: seq<seq<int>>)
    requires IsMatrix(s, |s|, n) && |s| <= toRows && n <= toN
    ensures IsMatrix(c, toRows, toN)
  {
    var padded := PadMatrix(s, n, toRows, toN, 0.0);
    CodesOf(padded, toN, MatrixMax(padded))
  }

  /** The padded scale codes over the original rows and columns are the unpadded ones. */
  lemma {:induction false} PreparedCode(s: seq<seq<real>>, n: nat, toN: nat, toRows: nat, g: nat, o: nat)
    requires IsMatrix(s, |s|, n) && |s| <= toRows && n <= toN && g < |s| && o < n
    ensures PreparedScales(s, n, toN, toRows)[g][o] == ScaleCode(s[g][o], MatrixMax(s))
  {
    PaddedMatrixMax(s, n, toRows, toN);
  }

  /** The prepared layer's kernel sum at the padded extents. */
  lemma {:induction false} PaddedSum(x: seq<real>, w: seq<seq<int>>, s: seq<seq<real>>, b: seq<real>, n: nat, k: nat,
                                     groupSize: int, toN: nat, toK: nat, o: nat)
    requires WellShaped(w, s, b, n, k, groupSize) && |x| == k && o < n && Extents(n, k, groupSize, toN, toK)
    ensures forall i :: 0 <= i < toK ==> GroupOf(i, groupSize) < Groups(toK, groupSize)
    ensures forall i :: 0 <= i < k ==> GroupOf(i, groupSize) < |s|
    ensures KernelSum(PadRow(x, toK, 0.0), PreparedWeight(w, k, toN, toK), toN,
                      PreparedScales(s, n, toN, Groups(toK, groupSize)), o, groupSize, toK)
            == PlainSum(x, w[o], s, o, groupSize, k)
  {
    hide TokenMax, WeightAt, ScaleCode, MatrixMax, GroupOf, Groups, PadRow, PreparedScales;
    GroupsInside(toK, groupSize);
    GroupsInside(k, groupSize);
    var codes := PreparedScales(s, n, toN, Groups(toK, groupSize));
    var p := PreparedWeight(w, k, toN, toK);
    var xp := PadRow(x, toK, 0.0);
    PaddedTokenMax(x, toK);
    forall i | 0 <= i < k
      ensures WeightAt(p, toN, i, o) == w[o][i]
      ensures codes[GroupOf(i, groupSize)][o] == ScaleCode(s[GroupOf(i, groupSize)][o], MatrixMax(s))
    {
      PaddedWeight(w, k, toN, toK, i, o);
      PreparedCode(s, n, toN, Groups(toK, groupSize), GroupOf(i, groupSize), o);
    }
    SumBeyond(xp, p, toN, codes, o, groupSize, k, toK);
    SumInside(x, xp, w[o], s, p, toN, codes, o, groupSize, k);
  }

  /** The kernel at the extents it is given: one output per padded column. */
  function KernelRow(xp: seq<real>, aScale: real, p: seq<seq<int>>, codes: seq<seq<int>>, bias: seq<real>,
                     groupSize: int, cols: nat, k: nat): (row: seq<real>)
    requires IsMatrix(p, |p|, cols) && IsMatrix(codes, Groups(k, groupSize), cols) && |bias| == cols
    requires |xp| == k <= 8 * |p| && (groupSize > 0 ==> k % groupSize == 0)
    ensures |row| == cols
    ensures forall o :: 0 <= o < cols ==> row[o] == KernelAt(xp, aScale, p, codes, bias, groupSize, cols, k, o)
  {
    var row := seq(cols, o requires 0 <= o < cols => KernelAt(xp, aScale, p, codes, bias, groupSize, cols, k, o));
    assert forall o :: 0 <= o < cols ==> row[o] == KernelAt(xp, aScale, p, codes, bias, groupSize, cols, k, o);
    row
  }

  function KernelAt(xp: seq<real>, aScale: real, p: seq<seq<int>>, codes: seq<seq<int>>, bias: seq<real>,
                    groupSize: int, cols: nat, k: nat, o: nat): real
    requires IsMatrix(p, |p|, cols) && IsMatrix(codes, Groups(k, groupSize), cols) && |bias| == cols && o < cols
    requires |xp| == k <= 8 * |p| && (groupSize > 0 ==> k % groupSize == 0)
  {
    GroupsInside(k, groupSize);
    aScale * KernelSum(xp, p, cols, codes, o, groupSize, k) as real + bias[o]
  }

  lemma SameAffine(a: real, x: int, c: real, a': real, x': int, c': real)
    requires a == a' && x == x' && c == c'
    ensures a * x as real + c == a' * x' as real + c'
  {
  }

  /** At every original column the padded kernel is the unpadded quantised layer. */
  lemma {:induction false} PaddedKernel(x: seq<real>, w: seq<seq<int>>, s: seq<seq<real>>, b: seq<real>, n: nat,
                                        k: nat, groupSize: int, toN: nat, toK: nat, aScale: real, o: nat)
    requires WellShaped(w, s, b, n, k, groupSize) && |x| == k && o < n && Extents(n, k, groupSize, toN, toK)
    requires aScale == TokenScale(PadRow(x, toK, 0.0)) * (MatrixMax(s) / 4096.0)
    ensures KernelAt(PadRow(x, toK, 0.0), aScale, PreparedWeight(w, k, toN, toK),
                     PreparedScales(s, n, toN, Groups(toK, groupSize)), PadRow(b, toN, 0.0), groupSize, toN, toK, o)
            == PlainAt(x, w, s, b, n, k, groupSize, o)
  {
    hide TokenMax, MatrixMax, GroupOf, Groups, PadRow, PreparedScales, PreparedWeight, KernelSum, PlainSum;
    PaddedTokenMax(x, toK);
    PaddedSum(x, w, s, b, n, k, groupSize, toN, toK, o);
    var p, codes := PreparedWeight(w, k, toN, toK), PreparedScales(s, n, toN, Groups(toK, groupSize));
    assert TokenScale(PadRow(x, toK, 0.0)) == TokenScale(x);
    SameAffine(aScale, KernelSum(PadRow(x, toK, 0.0), p, toN, codes, o, groupSize, toK), PadRow(b, toN, 0.0)[o],
               TokenScale(x) * (MatrixMax(s) / 4096.0), PlainSum(x, w[o], s, o, groupSize, k), b[o]);
  }

  /** One linear layer's Marlin state. */
  class MarlinLayer {
    const sizeN: nat
    const sizeK: nat
    const groupSize: int
    var wq: seq<seq<int>>
    var ws: seq<seq<int>>
    var bias: seq<real>
    var inputGlobalScale: Option<real>
    var paddedN: nat
    var paddedK: nat

    constructor (sizeN: nat, sizeK: nat, groupSize: int)
      ensures this.sizeN == sizeN && this.sizeK == sizeK && this.groupSize == groupSize
    {
      this.sizeN, this.sizeK, this.groupSize := sizeN, sizeK, groupSize;
      wq, ws, bias, inputGlobalScale, paddedN, paddedK := [], [], [], None, 0, 0;
    }

    /** The state after weight preparation. */
    ghost predicate Prepared(w: seq<seq<int>>, s: seq<seq<real>>, b: seq<real>)
      reads this
      requires WellShaped(w, s, b, sizeN, sizeK, groupSize)
    {
      && (paddedN, paddedK) == PaddedNK(sizeN, sizeK, groupSize)
      && Extents(sizeN, sizeK, groupSize, paddedN, paddedK)
      && wq == PreparedWeight(w, sizeK, paddedN, paddedK)
      && ws == PreparedScales(s, sizeN, paddedN, Groups(paddedK, groupSize))
      && bias == PadRow(b, paddedN, 0.0)
      && inputGlobalScale == (if Groups(sizeK, groupSize) > 1 then Some(MatrixMax(s) / 4096.0) else None)
    }

    /** `process_weights_after_loading` for int4 weights and int8 activations. */
    method ProcessWeights(w: seq<seq<int>>, s: seq<seq<real>>, b: seq<real>)
      requires WellShaped(w, s, b, sizeN, sizeK, groupSize)
      modifies this
      ensures Prepared(w, s, b)
    {
      hide PaddedNK, Groups, MatrixMax, PadMatrix, PackMatrix, CodesOf, PadRow, IsInt4;
      PaddedShape(sizeN, sizeK, groupSize);
      var p := PaddedNK(sizeN, sizeK, groupSize);
      paddedN, paddedK := p.0, p.1;
      wq := PreparedWeight(w, sizeK, paddedN, paddedK);
      ws := PreparedScales(s, sizeN, paddedN, Groups(paddedK, groupSize));
      if Groups(sizeK, groupSize) > 1 {
        PaddedMatrixMax(s, sizeN, Groups(paddedK, groupSize), paddedN);
        inputGlobalScale := Some(MatrixMax(PadMatrix(s, sizeN, Groups(paddedK, groupSize), paddedN, 0.0)) / 4096.0);
      } else {
        inputGlobalScale := None;
      }
      bias := PadRow(b, paddedN, 0.0);
    }

    /** `apply_weights` on one token: pad the activation, quantise it, run at the padded extents, strip
        the padded columns. The result is the plain product of the original int4 weights. */
    method ApplyWeights(x: seq<real>, ghost w: seq<seq<int>>, ghost s: seq<seq<real>>,
                        ghost b: seq<real>) returns (r: Result)
      requires WellShaped(w, s, b, sizeN, sizeK, groupSize) && Prepared(w, s, b) && |x| == sizeK
      ensures r == PlainProduct(x, w, s, b, sizeN, sizeK, groupSize)
    {
      hide PaddedNK, Groups, MatrixMax, PreparedWeight, PreparedScales, IsInt4, KernelAt, PlainAt, TokenScale, CodesFit;
      if inputGlobalScale.None? {
        return TypeError;
      }
      var xp := PadRow(x, paddedK, 0.0);
      var aScale := TokenScale(xp) * inputGlobalScale.value;
      var row := KernelRow(xp, aScale, wq, ws, bias, groupSize, paddedN, paddedK);
      forall o | 0 <= o < sizeN ensures row[o] == PlainAt(x, w, s, b, sizeN, sizeK, groupSize, o) {
        PaddedKernel(x, w, s, b, sizeN, sizeK, groupSize, paddedN, paddedK, aScale, o);
      }
      r := Ok(row[..sizeN]);
      assert r.row == PlainProduct(x, w, s, b, sizeN, sizeK, groupSize).row;
    }
  }
}
