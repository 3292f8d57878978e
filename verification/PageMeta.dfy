/** Paged-KV metadata: the page indptr, the compacted page ids and the last-page lengths the
    FlashInfer wrappers are given, rebuilt without a host sync by a cumulative-sum scatter whose
    unused entries go to one trash slot. */
module PageMeta {
  import opened IndexArith

  // ---- what the metadata has to be ----

  /** Pages a request of len tokens occupies. */
  function Pages(len: nat, ps: nat): nat
    requires ps > 0
  {
    CeilDiv(len, ps)
  }

  function LastPageLen(len: nat, ps: nat): int
    requires ps > 0
  {
    len - (Pages(len, ps) - 1) * ps
  }

  /** A step's block table (one row of mb page ids per request) and sequence lengths. */
  datatype Step = Step(table: seq<seq<int>>, lens: seq<nat>) {
    ghost predicate Fits(ps: nat, mb: nat) {
      && ps > 0 && |table| == |lens|
      && forall i :: 0 <= i < |lens| ==> |table[i]| == mb && lens[i] <= mb * ps
    }
  }

  /** Pages of the first n requests together. */
  function Total(lens: seq<nat>, ps: nat, n: nat): nat
    requires ps > 0 && n <= |lens|
  {
    if n == 0 then 0 else Total(lens, ps, n - 1) + Pages(lens[n - 1], ps)
  }

  /** The used page ids of the first n requests, one request after the other. */
  function Compact(s: Step, ps: nat, mb: nat, n: nat): (ids: seq<int>)
    requires s.Fits(ps, mb) && n <= |s.lens|
    ensures |ids| == Total(s.lens, ps, n)
  {
    if n == 0 then []
    else
      PagesFit(s, ps, mb, n - 1);
      Compact(s, ps, mb, n - 1) + s.table[n - 1][..Pages(s.lens[n - 1], ps)]
  }

  lemma PagesFit(s: Step, ps: nat, mb: nat, i: nat)
    requires s.Fits(ps, mb) && i < |s.lens|
    ensures Pages(s.lens[i], ps) <= mb
  {
    assert s.lens[i] <= mb * ps && |s.table[i]| == mb;
    if s.lens[i] > 0 {
      CeilDivBounds(s.lens[i], ps);
      if Pages(s.lens[i], ps) > mb {
        MulMono(mb, Pages(s.lens[i], ps) - 1, ps);
      }
    } else {
      NoPages(ps);
    }
  }

  lemma NoPages(ps: nat)
    requires ps > 0
    ensures Pages(0, ps) == 0
  {
    DivIs(ps, ps - 1, 0, ps - 1);
  }

  /** Full pages before the last one, plus the last page, are the length; the last page is never
      empty and never over-full. */
  lemma PagesAddUp(len: nat, ps: nat)
    requires ps > 0
    ensures (Pages(len, ps) - 1) * ps + LastPageLen(len, ps) == len
    ensures 1 <= LastPageLen(len, ps) <= ps
  {
    var n := Pages(len, ps);
    CeilDivBounds(len, ps);
    if len == 0 {
      NoPages(ps);
    }
    assert (n - 1) * ps == n * ps - ps;
  }

  lemma {:induction false} TotalBound(s: Step, ps: nat, mb: nat, n: nat)
    requires s.Fits(ps, mb) && n <= |s.lens|
    ensures Total(s.lens, ps, n) <= n * mb
  {
    if n > 0 {
      TotalBound(s, ps, mb, n - 1);
      PagesFit(s, ps, mb, n - 1);
      assert n * mb == (n - 1) * mb + mb;
    }
  }

  /** Request i's slice of the compacted ids, cut at the indptr bounds, is the head of its table row. */
  lemma {:induction false} CompactSlice(s: Step, ps: nat, mb: nat, i: nat, n: nat)
    requires s.Fits(ps, mb) && i < n <= |s.lens|
    ensures Pages(s.lens[i], ps) <= mb == |s.table[i]|
    ensures Total(s.lens, ps, i) <= Total(s.lens, ps, i + 1) <= |Compact(s, ps, mb, n)|
    ensures Compact(s, ps, mb, n)[Total(s.lens, ps, i)..Total(s.lens, ps, i + 1)] == s.table[i][..Pages(s.lens[i], ps)]
  {
    PagesFit(s, ps, mb, i);
    if i < n - 1 {
      CompactSlice(s, ps, mb, i, n - 1);
      var whole, head := Compact(s, ps, mb, n), Compact(s, ps, mb, n - 1);
      assert whole[..|head|] == head;
      var from, to := Total(s.lens, ps, i), Total(s.lens, ps, i + 1);
      assert whole[from..to] == head[from..to];
    }
  }

  function Indptr(lens: seq<nat>, ps: nat): (ptr: seq<nat>)
    requires ps > 0
    ensures |ptr| == |lens| + 1
    ensures forall i :: 0 <= i <= |lens| ==> ptr[i] == Total(lens, ps, i)
  {
    var ptr := seq(|lens| + 1, i requires 0 <= i <= |lens| => Total(lens, ps, i));
    assert forall i :: 0 <= i <= |lens| ==> ptr[i] == Total(lens, ps, i);
    ptr
  }

  function LastPages(lens: seq<nat>, ps: nat): (klp: seq<int>)
    requires ps > 0
    ensures |klp| == |lens|
    ensures forall i :: 0 <= i < |lens| ==> klp[i] == LastPageLen(lens[i], ps)
  {
    var klp := seq(|lens|, i requires 0 <= i < |lens| => LastPageLen(lens[i], ps));
    assert forall i :: 0 <= i < |lens| ==> klp[i] == LastPageLen(lens[i], ps);
    klp
  }

  // ---- the scatter ----

  /** arange(mb) repeated n times. */
  ghost predicate IsColumns(col: seq<nat>, mb: nat, rows: nat) {
    |col| >= rows * mb && forall i: nat, j: nat :: i < rows && j < mb ==> ColumnAt(col, mb, i, j)
  }

  lemma FewerColumns(col: seq<nat>, mb: nat, rows: nat, fewer: nat)
    requires IsColumns(col, mb, rows) && fewer <= rows
    ensures IsColumns(col, mb, fewer)
  {
    MulMono(fewer, rows, mb);
  }

  ghost predicate ColumnAt(col: seq<nat>, mb: nat, i: nat, j: nat) {
    i * mb + j < |col| && col[i * mb + j] == j
  }

  method Zero(buf: array<int>)
    modifies buf
    ensures forall x :: 0 <= x < buf.Length ==> buf[x] == 0
  {
    for x := 0 to buf.Length
      invariant forall y :: 0 <= y < x ==> buf[y] == 0
    {
      buf[x] := 0;
    }
  }

  /** The entries of a row whose column constant is below its page count. */
  function KeptRow(row: seq<int>, cols: seq<nat>, npg: nat): (kept: seq<int>)
    requires |row| == |cols|
    ensures |kept| <= |row|
  {
    if row == [] then []
    else
      var n := |row| - 1;
      KeptRow(row[..n], cols[..n], npg) + if cols[n] < npg then [row[n]] else []
  }

  /** The constants the flattened row i is compared with. */
  function RowCols(col: seq<nat>, mb: nat, rows: nat, i: nat): (cols: seq<nat>)
    requires |col| >= rows * mb && i < rows
    ensures |cols| == mb && forall j: nat :: j < mb ==> i * mb + j < |col| && cols[j] == col[i * mb + j]
  {
    RowsBelow(i, rows, mb);
    var cols := col[i * mb..i * mb + mb];
    assert forall j: nat :: j < mb ==> cols[j] == col[i * mb + j];
    cols
  }

  /** What the scatter keeps of the first n rows, whatever the constants are. */
  function Kept(s: Step, col: seq<nat>, ps: nat, mb: nat, n: nat): (kept: seq<int>)
    requires s.Fits(ps, mb) && |col| >= |s.lens| * mb && n <= |s.lens|
    ensures |kept| <= n * mb
  {
    if n == 0 then []
    else
      RowsBelow(n - 1, n, mb);
      Kept(s, col, ps, mb, n - 1)
      + KeptRow(s.table[n - 1], RowCols(col, mb, |s.lens|, n - 1), Pages(s.lens[n - 1], ps))
  }

  /** The first n entries of a zeroed buffer that starts with `kept`. */
  function Taken(kept: seq<int>, n: nat): (r: seq<int>)
    ensures |r| == n && forall x :: 0 <= x < n ==> r[x] == if x < |kept| then kept[x] else 0
  {
    seq(n, x requires 0 <= x < n => if x < |kept| then kept[x] else 0)
  }

  /** The page ids plan() is handed, for whatever constants. */
  function ScatteredIds(s: Step, col: seq<nat>, ps: nat, mb: nat): seq<int>
    requires s.Fits(ps, mb) && |col| >= |s.lens| * mb
  {
    Taken(Kept(s, col, ps, mb, |s.lens|), Total(s.lens, ps, |s.lens|))
  }

  /** One request's row of the scatter; `count` is the running count of valid entries so far. */
  method ScatterRow(row: seq<int>, cols: seq<nat>, npg: nat, buf: array<int>, count: nat) returns (next: nat)
    requires |row| == |cols| && count + |row| < buf.Length
    requires forall x :: count <= x < buf.Length - 1 ==> buf[x] == 0
    modifies buf
    ensures next == count + |KeptRow(row, cols, npg)|
    ensures buf[..next] == old(buf[..count]) + KeptRow(row, cols, npg)
    ensures forall x :: next <= x < buf.Length - 1 ==> buf[x] == 0
  {
    var trash := buf.Length - 1;
    next := count;
    for j := 0 to |row|
      invariant next == count + |KeptRow(row[..j], cols[..j], npg)| <= count + j
      invariant buf[..next] == old(buf[..count]) + KeptRow(row[..j], cols[..j], npg)
      invariant forall x :: next <= x < trash ==> buf[x] == 0
    {
      assert row[..j + 1][..j] == row[..j] && cols[..j + 1][..j] == cols[..j];
      ghost var before := buf[..next];
      if cols[j] < npg {
        buf[next] := row[j];
        next := next + 1;
        assert buf[..next] == before + [row[j]];
      } else {
        buf[trash] := row[j];
        assert buf[..next] == before;
      }
    }
    assert row[..|row|] == row && cols[..|row|] == cols;
  }

  lemma NoRows(s: Step, ps: nat, mb: nat)
    requires s.Fits(ps, mb)
    ensures ps > 0 && |s.table| == |s.lens| && Total(s.lens, ps, 0) == 0 && Compact(s, ps, mb, 0) == []
  {
  }

  lemma OneMoreRow(s: Step, ps: nat, mb: nat, i: nat)
    requires s.Fits(ps, mb) && i < |s.lens|
    ensures i < |s.table| && Pages(s.lens[i], ps) <= mb == |s.table[i]|
    ensures Total(s.lens, ps, i + 1) == Total(s.lens, ps, i) + Pages(s.lens[i], ps)
    ensures Compact(s, ps, mb, i + 1) == Compact(s, ps, mb, i) + s.table[i][..Pages(s.lens[i], ps)]
  {
    PagesFit(s, ps, mb, i);
  }

  lemma RowsBelow(i: nat, n: nat, mb: nat)
    requires i < n
    ensures (i + 1) * mb == i * mb + mb <= n * mb
  {
    MulMono(i + 1, n, mb);
  }

  /** Zero the buffer, then send entry k of the flattened block table to the position the running count of
      valid entries gives it, or to the last slot when its column is past the request's pages. The kept
      entries come first, the rest is still zero, and the trash slot lies behind all of it. */
  method Scatter(s: Step, ps: nat, mb: nat, col: seq<nat>, buf: array<int>)
    requires s.Fits(ps, mb) && |col| >= |s.lens| * mb
    requires buf.Length > |s.lens| * mb
    modifies buf
    ensures forall n :: 0 <= n < buf.Length ==> buf[..n] == Taken(Kept(s, col, ps, mb, |s.lens|), n)
  {
    hide Pages, Kept, Total, Step.Fits, KeptRow;
    Zero(buf);
    var count := 0;
    NoRows(s, ps, mb);
    NothingKept(s, col, ps, mb);
    for i := 0 to |s.lens|
      invariant count == |Kept(s, col, ps, mb, i)| <= i * mb
      invariant count < buf.Length
      invariant buf[..count] == Kept(s, col, ps, mb, i)
      invariant forall x :: count <= x < buf.Length - 1 ==> buf[x] == 0
    {
      var npg := Pages(s.lens[i], ps);
      RowsBelow(i, |s.lens|, mb);
      OneMoreKept(s, col, ps, mb, i);
      count := ScatterRow(s.table[i], RowCols(col, mb, |s.lens|, i), npg, buf, count);
    }
    forall n | 0 <= n < buf.Length ensures buf[..n] == Taken(Kept(s, col, ps, mb, |s.lens|), n) {
      forall x | 0 <= x < n ensures buf[..n][x] == Taken(Kept(s, col, ps, mb, |s.lens|), n)[x] {
        if x < count {
          assert buf[..count][x] == buf[x];
        }
      }
    }
  }

  lemma NothingKept(s: Step, col: seq<nat>, ps: nat, mb: nat)
    requires s.Fits(ps, mb) && |col| >= |s.lens| * mb
    ensures Kept(s, col, ps, mb, 0) == []
  {
  }

  lemma OneMoreKept(s: Step, col: seq<nat>, ps: nat, mb: nat, i: nat)
    requires s.Fits(ps, mb) && |col| >= |s.lens| * mb && i < |s.lens|
    ensures |s.table| == |s.lens| && |s.table[i]| == mb && ps > 0
    ensures Kept(s, col, ps, mb, i + 1)
            == Kept(s, col, ps, mb, i) + KeptRow(s.table[i], RowCols(col, mb, |s.lens|, i), Pages(s.lens[i], ps))
  {
  }

  // ---- right constants ----

  /** As long as the first npg constants are below npg, the first npg entries kept are the row's. */
  lemma {:induction false} KeptPrefix(row: seq<int>, cols: seq<nat>, npg: nat, n: nat)
    requires npg <= n <= |row| == |cols| && forall j :: 0 <= j < npg ==> cols[j] < npg
    ensures |KeptRow(row[..n], cols[..n], npg)| >= npg && KeptRow(row[..n], cols[..n], npg)[..npg] == row[..npg]
  {
    if n > npg {
      KeptPrefix(row, cols, npg, n - 1);
      assert row[..n][..n - 1] == row[..n - 1] && cols[..n][..n - 1] == cols[..n - 1];
    } else {
      KeptAll(row[..npg], cols[..npg], npg);
    }
  }

  lemma {:induction false} KeptAll(row: seq<int>, cols: seq<nat>, npg: nat)
    requires |row| == |cols| && forall j :: 0 <= j < |cols| ==> cols[j] < npg
    ensures KeptRow(row, cols, npg) == row
  {
    if row != [] {
      var n := |row| - 1;
      KeptAll(row[..n], cols[..n], npg);
      assert row == row[..n] + [row[n]];
    }
  }

  lemma {:induction false} KeptNone(row: seq<int>, cols: seq<nat>, npg: nat)
    requires |row| == |cols| && forall j :: 0 <= j < |cols| ==> cols[j] >= npg
    ensures KeptRow(row, cols, npg) == []
  {
    if row != [] {
      KeptNone(row[..|row| - 1], cols[..|row| - 1], npg);
    }
  }

  /** With the constants 0, 1, 2, .. exactly the first npg entries are kept. */
  lemma {:induction false} KeptHead(row: seq<int>, cols: seq<nat>, npg: nat)
    requires npg <= |row| == |cols| && forall j :: 0 <= j < |cols| ==> cols[j] == j
    ensures KeptRow(row, cols, npg) == row[..npg]
  {
    if |row| > npg {
      var n := |row| - 1;
      KeptHead(row[..n], cols[..n], npg);
      assert row[..n][..npg] == row[..npg];
    } else {
      KeptAll(row, cols, npg);
      assert row[..npg] == row;
    }
  }

  lemma {:induction false} ColumnsAre(col: seq<nat>, mb: nat, rows: nat, i: nat)
    requires IsColumns(col, mb, rows) && i < rows
    ensures |col| >= rows * mb && forall j :: 0 <= j < mb ==> RowCols(col, mb, rows, i)[j] == j
  {
    forall j: nat | j < mb ensures RowCols(col, mb, rows, i)[j] == j {
      assert ColumnAt(col, mb, i, j);
    }
  }

  lemma {:induction false} KeptIsCompact(s: Step, col: seq<nat>, ps: nat, mb: nat, n: nat)
    requires s.Fits(ps, mb) && IsColumns(col, mb, |s.lens|) && n <= |s.lens|
    ensures Kept(s, col, ps, mb, n) == Compact(s, ps, mb, n)
  {
    hide KeptRow, Pages, Kept, Compact, IsColumns;
    ColumnsCover(col, mb, |s.lens|);
    NothingKept(s, col, ps, mb);
    NoRows(s, ps, mb);
    if n > 0 {
      KeptIsCompact(s, col, ps, mb, n - 1);
      var cols := RowCols(col, mb, |s.lens|, n - 1);
      ColumnsAre(col, mb, |s.lens|, n - 1);
      OneMoreKept(s, col, ps, mb, n - 1);
      OneMoreRow(s, ps, mb, n - 1);
      KeptHead(s.table[n - 1], cols, Pages(s.lens[n - 1], ps));
    }
  }

  /** With the right constants the used prefix is the compacted ids and the rest is zero. */
  method ScatterCompact(s: Step, ps: nat, mb: nat, col: seq<nat>, buf: array<int>)
    requires s.Fits(ps, mb) && IsColumns(col, mb, |s.lens|)
    requires buf.Length > |s.lens| * mb
    modifies buf
    ensures Total(s.lens, ps, |s.lens|) < buf.Length
    ensures buf[..Total(s.lens, ps, |s.lens|)] == Compact(s, ps, mb, |s.lens|)
    ensures forall x :: Total(s.lens, ps, |s.lens|) <= x < buf.Length - 1 ==> buf[x] == 0
  {
    hide Kept, Compact, Total, IsColumns;
    TotalBound(s, ps, mb, |s.lens|);
    KeptIsCompact(s, col, ps, mb, |s.lens|);
    ColumnsCover(col, mb, |s.lens|);
    Scatter(s, ps, mb, col, buf);
    ghost var total, ids := Total(s.lens, ps, |s.lens|), Compact(s, ps, mb, |s.lens|);
    assert buf[..total] == Taken(ids, total) == ids;
    forall x | total <= x < buf.Length - 1 ensures buf[x] == 0 {
      assert buf[..x + 1][x] == Taken(ids, x + 1)[x];
    }
  }

  lemma ColumnsCover(col: seq<nat>, mb: nat, rows: nat)
    requires IsColumns(col, mb, rows)
    ensures |col| >= rows * mb
  {
  }

  /** The constants serve every step of this shape. */
  ghost predicate Serve(col: seq<nat>, ps: nat, mb: nat, rows: nat) {
    |col| >= rows * mb && forall s: Step :: s.Fits(ps, mb) && |s.lens| == rows ==> Served(s, col, ps, mb)
  }

  ghost predicate Served(s: Step, col: seq<nat>, ps: nat, mb: nat)
    requires s.Fits(ps, mb) && |col| >= |s.lens| * mb
  {
    ScatteredIds(s, col, ps, mb) == Compact(s, ps, mb, |s.lens|)
  }

  lemma {:induction false} ColumnsServe(col: seq<nat>, ps: nat, mb: nat, rows: nat)
    requires IsColumns(col, mb, rows)
    ensures Serve(col, ps, mb, rows)
  {
    forall s: Step | s.Fits(ps, mb) && |s.lens| == rows ensures Served(s, col, ps, mb) {
      KeptIsCompact(s, col, ps, mb, rows);
    }
  }

  /** A single row is served by any constants that nowhere exceed their position: entries kept in excess
      come behind the ones that are used. */
  lemma SingleRowServed(col: seq<nat>, ps: nat, mb: nat)
    requires |col| >= mb && forall j :: 0 <= j < mb ==> col[j] <= j
    ensures Serve(col, ps, mb, 1)
  {
    forall s: Step | s.Fits(ps, mb) && |s.lens| == 1 ensures Served(s, col, ps, mb) {
      var row, cols, npg := s.table[0], RowCols(col, mb, 1, 0), Pages(s.lens[0], ps);
      PagesFit(s, ps, mb, 0);
      KeptPrefix(row, cols, npg, mb);
      assert row[..mb] == row && cols[..mb] == cols;
      assert Kept(s, col, ps, mb, 1) == Kept(s, col, ps, mb, 0) + KeptRow(row, cols, npg) == KeptRow(row, cols, npg);
      assert Compact(s, ps, mb, 1) == Compact(s, ps, mb, 0) + row[..npg] == row[..npg];
      assert Total(s.lens, ps, 1) == Total(s.lens, ps, 0) + npg == npg;
      assert Taken(KeptRow(row, cols, npg), npg) == KeptRow(row, cols, npg)[..npg];
    }
  }

  // ---- wrong constants ----

  /** Two requests of one page each, or only the second of them, in a table of equal rows. */
  function Probe(rows: nat, first: nat, row0: seq<int>, row1: seq<int>): (s: Step)
    requires rows >= 2 && first <= 1
    ensures |s.table| == |s.lens| == rows && s.table[0] == row0 && s.lens[0] == first && s.lens[1] == 1
    ensures forall i :: 1 <= i < rows ==> s.table[i] == row1
    ensures forall i :: 2 <= i < rows ==> s.lens[i] == 0
  {
    Step(seq(rows, i => if i == 0 then row0 else row1),
        seq(rows, i => if i == 0 then first else if i == 1 then 1 else 0))
  }

  lemma SmallPages(ps: nat)
    requires ps > 0
    ensures Pages(0, ps) == 0 && Pages(1, ps) == 1
  {
    NoPages(ps);
    DivIs(ps, ps, 1, 0);
  }

  /** Requests without tokens add nothing. */
  lemma {:induction false} EmptyTail(s: Step, col: seq<nat>, ps: nat, mb: nat, n: nat)
    requires s.Fits(ps, mb) && |col| >= |s.lens| * mb && 2 <= n <= |s.lens|
    requires forall i :: 2 <= i < n ==> s.lens[i] == 0
    ensures Kept(s, col, ps, mb, n) == Kept(s, col, ps, mb, 2)
    ensures Compact(s, ps, mb, n) == Compact(s, ps, mb, 2) && Total(s.lens, ps, n) == Total(s.lens, ps, 2)
  {
    if n > 2 {
      hide KeptRow, Pages;
      EmptyTail(s, col, ps, mb, n - 1);
      SmallPages(ps);
      KeptNone(s.table[n - 1], RowCols(col, mb, |s.lens|, n - 1), 0);
    }
  }

  lemma {:induction false} KeptValues(row: seq<int>, cols: seq<nat>, npg: nat, v: int)
    requires |row| == |cols| && forall j :: 0 <= j < |row| && cols[j] < npg ==> row[j] == v
    ensures forall x :: 0 <= x < |KeptRow(row, cols, npg)| ==> KeptRow(row, cols, npg)[x] == v
  {
    if row != [] {
      KeptValues(row[..|row| - 1], cols[..|row| - 1], npg, v);
    }
  }

  lemma {:induction false} KeptCount(row: seq<int>, cols: seq<nat>, npg: nat, a: nat)
    requires |row| == |cols| && a < |row| && cols[a] < npg
    ensures |KeptRow(row, cols, npg)| >= 1 + |KeptRow(row[..a], cols[..a], npg)|
  {
    var n := |row| - 1;
    if a < n {
      KeptCount(row[..n], cols[..n], npg, a);
      assert row[..n][..a] == row[..a] && cols[..n][..a] == cols[..a];
    }
  }

  /** The second row's constants do not start at 0: its first page is lost. */
  lemma FirstPageLost(col: seq<nat>, ps: nat, mb: nat, rows: nat)
    requires ps > 0 && mb > 0 && rows >= 2 && |col| >= rows * mb
    requires RowCols(col, mb, rows, 1)[0] != 0
    ensures !Serve(col, ps, mb, rows)
  {
    var row := seq(mb, j => if j == 0 then 1 else 2);
    var s := Probe(rows, 0, row, row);
    MulMono(1, mb, ps);
    assert s.Fits(ps, mb);
    SmallPages(ps);
    KeptNone(s.table[0], RowCols(col, mb, rows, 0), 0);
    KeptValues(s.table[1], RowCols(col, mb, rows, 1), 1, 2);
    EmptyTail(s, col, ps, mb, rows);
    TwoRows(s, col, ps, mb);
    assert Compact(s, ps, mb, rows)[0] == 1 && ScatteredIds(s, col, ps, mb)[0] != 1;
    assert !Served(s, col, ps, mb);
  }

  /** The first row's constants hold a second 0: a page that is not the request's comes before the next
      request's. */
  lemma PageTooMany(col: seq<nat>, ps: nat, mb: nat, rows: nat, a: nat)
    requires ps > 0 && 0 < a < mb && rows >= 2 && |col| >= rows * mb
    requires RowCols(col, mb, rows, 0)[0] == 0 && RowCols(col, mb, rows, 0)[a] == 0
    ensures !Serve(col, ps, mb, rows)
  {
    var s := Probe(rows, 1, seq(mb, _ => 1), seq(mb, _ => 2));
    MulMono(1, mb, ps);
    assert s.Fits(ps, mb);
    SmallPages(ps);
    var cols := RowCols(col, mb, rows, 0);
    KeptCount(s.table[0], cols, 1, a);
    KeptCount(s.table[0][..a], cols[..a], 1, 0);
    KeptValues(s.table[0], cols, 1, 1);
    EmptyTail(s, col, ps, mb, rows);
    TwoRows(s, col, ps, mb);
    assert Compact(s, ps, mb, rows)[1] == 2 && ScatteredIds(s, col, ps, mb)[1] == 1;
    assert !Served(s, col, ps, mb);
  }

  lemma {:induction false} TwoRows(s: Step, col: seq<nat>, ps: nat, mb: nat)
    requires s.Fits(ps, mb) && |col| >= |s.lens| * mb && |s.lens| >= 2
    ensures Kept(s, col, ps, mb, 2)
            == KeptRow(s.table[0], RowCols(col, mb, |s.lens|, 0), Pages(s.lens[0], ps))
             + KeptRow(s.table[1], RowCols(col, mb, |s.lens|, 1), Pages(s.lens[1], ps))
    ensures Pages(s.lens[0], ps) <= mb && Pages(s.lens[1], ps) <= mb
    ensures Compact(s, ps, mb, 2) == s.table[0][..Pages(s.lens[0], ps)] + s.table[1][..Pages(s.lens[1], ps)]
    ensures Total(s.lens, ps, 2) == Pages(s.lens[0], ps) + Pages(s.lens[1], ps)
  {
    hide KeptRow, Pages;
    NoRows(s, ps, mb);
    NothingKept(s, col, ps, mb);
    OneMoreKept(s, col, ps, mb, 0);
    OneMoreKept(s, col, ps, mb, 1);
    OneMoreRow(s, ps, mb, 0);
    OneMoreRow(s, ps, mb, 1);
  }
}
