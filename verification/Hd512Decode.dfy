/** The persistent decode state for head size 512: max-sized metadata buffers shared by every layer
    and every batch size, one wrapper per batch size bound to slices of them, and a metadata rebuild
    that only the step's first layer runs. */
module Hd512Decode {
  import opened IndexArith
  import opened PageMeta

  datatype Layer = NoLayer | Layer(id: int)

  /** What a wrapper bound to batch size B reads from the shared buffers when it runs. */
  datatype View = View(qo: seq<int>, kvi: seq<int>, kvidx: seq<int>, klp: seq<int>) {

    /** The view is the metadata of step s: qo is [0, 2, .., 2B], the indptr and last-page lengths are
        the step's, and the page ids up to the indptr's end are its compacted block table. */
    ghost predicate Shows(s: Step, ps: nat, mb: nat)
      requires s.Fits(ps, mb)
    {
      var B := |s.lens|;
      && IsEven(qo, B)
      && kvi == Indptr(s.lens, ps)
      && Total(s.lens, ps, B) <= |kvidx| && kvidx[..Total(s.lens, ps, B)] == Compact(s, ps, mb, B)
      && klp == LastPages(s.lens, ps)
    }

    /** The view a plan for the largest replay leaves: every request owns mb full pages. */
    ghost predicate WorstCase(B: nat, ps: nat, mb: nat) {
      && IsEven(qo, B)
      && |kvi| == B + 1 && (forall i :: 0 <= i <= B ==> kvi[i] == i * mb)
      && |kvidx| >= B * mb && (forall i :: 0 <= i < B * mb ==> kvidx[i] == i)
      && |klp| == B && (forall i :: 0 <= i < B ==> klp[i] == ps)
    }
  }

  ghost predicate IsEven(qo: seq<int>, B: nat) {
    |qo| == B + 1 && forall i :: 0 <= i <= B ==> qo[i] == 2 * i
  }

  datatype Outcome = Declined | Ran(view: View)

  class State {
    const ps: nat
    const mb: nat
    const maxBs: nat
    const col: seq<nat>
    const qo: array<int>
    const kvi: array<int>
    const kvidx: array<int>
    const kvidxExt: array<int>
    const klp: array<int>
    var wrappers: set<nat>
    var firstLayer: Layer

    ghost const Buffers: set<object>

    ghost predicate Valid()
      reads this, qo
    {
      && ps > 0
      && Buffers == {qo, kvi, kvidx, kvidxExt, klp}
      && qo != kvi && qo != kvidx && qo != kvidxExt && qo != klp && kvi != kvidx && kvi != kvidxExt && kvi != klp
      && kvidx != kvidxExt && kvidx != klp && kvidxExt != klp
      && qo.Length == kvi.Length == maxBs + 1 && klp.Length == maxBs
      && kvidx.Length == maxBs * mb && kvidxExt.Length == maxBs * mb + 1
      && IsColumns(col, mb, maxBs)
      && forall B :: B in wrappers ==> B <= maxBs && IsEven(qo[..B + 1], B)
    }

    constructor (ps: nat, mb: nat, maxBs: nat, col: seq<nat>)
      requires ps > 0 && IsColumns(col, mb, maxBs)
      ensures Valid() && fresh(Buffers) && this.ps == ps && this.mb == mb && this.maxBs == maxBs
      ensures wrappers == {} && firstLayer == NoLayer
    {
      this.ps, this.mb, this.maxBs, this.col := ps, mb, maxBs, col;
      var a, b, c := new int[maxBs + 1](_ => 0), new int[maxBs + 1](_ => 0), new int[maxBs](_ => 0);
      var d, e := new int[maxBs * mb](_ => 0), new int[maxBs * mb + 1](_ => 0);
      qo, kvi, klp, kvidx, kvidxExt := a, b, c, d, e;
      Buffers := {a, b, c, d, e};
      wrappers, firstLayer := {}, NoLayer;
    }

    /** The slices wrapper B is bound to, as they are now. */
    function ViewOf(B: nat): View
      reads this, qo, kvi, kvidx, klp
      requires Valid() && B <= maxBs
    {
      View(qo[..B + 1], kvi[..B + 1], kvidx[..], klp[..B])
    }

    /** `_build_meta`: rebuild everything but qo for this step. */
    method BuildMeta(s: Step)
      requires Valid() && s.Fits(ps, mb) && |s.lens| <= maxBs
      modifies kvi, kvidx, kvidxExt, klp
      ensures Valid()
      ensures kvi[..|s.lens| + 1] == Indptr(s.lens, ps)
      ensures klp[..|s.lens|] == LastPages(s.lens, ps)
      ensures Total(s.lens, ps, |s.lens|) <= kvidx.Length
      ensures kvidx[..Total(s.lens, ps, |s.lens|)] == Compact(s, ps, mb, |s.lens|)
    {
      var B := |s.lens|;
      var ptr, last := Indptr(s.lens, ps), LastPages(s.lens, ps);
      forall i | 0 <= i <= B { kvi[i] := ptr[i]; }
      forall i | 0 <= i < B { klp[i] := last[i]; }
      MulMono(B, maxBs, mb);
      FewerColumns(col, mb, maxBs, B);
      ScatterCompact(s, ps, mb, col, kvidxExt);
      forall i | 0 <= i < kvidx.Length { kvidx[i] := kvidxExt[i]; }
      assert kvidx[..] == kvidxExt[..kvidx.Length];
      TotalBound(s, ps, mb, B);
    }

    /** `_ensure_wrapper`: plan batch size B for the worst case, in the shared buffers themselves. */
    method EnsureWrapper(B: nat)
      requires Valid() && B <= maxBs
      modifies this`wrappers, qo, kvi, kvidx, klp
      ensures Valid() && wrappers == old(wrappers) + {B}
      ensures B in old(wrappers) ==> ViewOf(B) == old(ViewOf(B))
      ensures B !in old(wrappers) ==> ViewOf(B).WorstCase(B, ps, mb)
    {
      if B in wrappers {
        assert wrappers + {B} == wrappers;
        return;
      }
      MulMono(B, maxBs, mb);
      forall i | 0 <= i <= B { qo[i] := 2 * i; }
      forall i | 0 <= i <= B { kvi[i] := i * mb; }
      forall i | 0 <= i < B * mb { kvidx[i] := i; }
      forall i | 0 <= i < B { klp[i] := ps; }
      forall b | b in wrappers ensures IsEven(qo[..b + 1], b) {
        assert old(IsEven(qo[..b + 1], b));
        forall i | 0 <= i <= b ensures qo[i] == 2 * i {
          assert old(qo[..b + 1])[i] == 2 * i;
        }
      }
      wrappers := wrappers + {B};
    }

    /** `run`, for one layer of one step. The rebuild happens only on the layer first seen. */
    method Run(layer: int, s: Step, capturing: bool) returns (r: Outcome)
      requires Valid() && s.Fits(ps, mb) && |s.lens| <= maxBs
      modifies this, qo, kvi, kvidx, kvidxExt, klp
      ensures Valid()
      ensures var B := |s.lens|;
        if capturing && B !in old(wrappers) then
          r == Declined && wrappers == old(wrappers) && firstLayer == old(firstLayer)
        else
          && wrappers == old(wrappers) + {B}
          && firstLayer == (if old(firstLayer) == NoLayer then Layer(layer) else old(firstLayer))
          && r == Ran(ViewOf(B))
          && if firstLayer == Layer(layer) then r.view.Shows(s, ps, mb)
             else if B in old(wrappers) then r.view == old(ViewOf(B))
             else r.view.WorstCase(B, ps, mb)
    {
      var B := |s.lens|;
      if B !in wrappers {
        if capturing {
          return Declined;
        }
        EnsureWrapper(B);
      } else {
        assert wrappers + {B} == wrappers;
      }
      if firstLayer == NoLayer {
        firstLayer := Layer(layer);
      }
      if firstLayer == Layer(layer) {
        BuildMeta(s);
      }
      r := Ran(ViewOf(B));
    }

    /** All calls of one step: the layers in order, on the same metadata. */
    method RunStep(call: Call) returns (outs: seq<Outcome>)
      requires Valid() && call.Fits(ps, mb, maxBs) && AnchorFirst(call)
      modifies this, qo, kvi, kvidx, kvidxExt, klp
      ensures Valid() && (firstLayer == NoLayer || firstLayer == Layer(call.layers[0]))
      ensures wrappers == if call.capturing then old(wrappers) else old(wrappers) + {|call.s.lens|}
      ensures |outs| == |call.layers|
      ensures forall j :: 0 <= j < |outs| ==> Correct(outs[j], call, |call.s.lens| in old(wrappers), ps, mb)
    {
      outs := [];
      var B := |call.s.lens|;
      ghost var warm := B in wrappers;
      for j := 0 to |call.layers|
        invariant Valid() && |outs| == j
        invariant AnchorFirst(call)
        invariant if call.capturing && !warm then wrappers == old(wrappers)
                  else j > 0 ==> B in wrappers && firstLayer == Layer(call.layers[0]) && ViewOf(B).Shows(call.s, ps, mb)
        invariant wrappers == if call.capturing || j == 0 then old(wrappers) else old(wrappers) + {B}
        invariant forall i :: 0 <= i < j ==> Correct(outs[i], call, warm, ps, mb)
      {
        var r := Run(call.layers[j], call.s, call.capturing);
        outs := outs + [r];
      }
    }

    /** The step's first call is the layer the state rebuilds on. */
    ghost predicate AnchorFirst(call: Call)
      reads this
      requires |call.layers| > 0
    {
      firstLayer == NoLayer || firstLayer == Layer(call.layers[0])
    }

    /** A whole serving run: any number of steps, any mix of batch sizes, eager or captured, whose
        first call is always the same layer. A step runs exactly when it is eager or its batch size
        was met in an earlier eager step, and then every layer's kernel reads the step's own
        metadata. */
    method RunAll(anchor: int, calls: seq<Call>) returns (trace: seq<seq<Outcome>>)
      requires Valid() && wrappers == {} && firstLayer == NoLayer
      requires forall k :: 0 <= k < |calls| ==> calls[k].Fits(ps, mb, maxBs) && calls[k].layers[0] == anchor
      modifies this, qo, kvi, kvidx, kvidxExt, klp
      ensures |trace| == |calls|
      ensures forall k :: 0 <= k < |calls| ==> |trace[k]| == |calls[k].layers|
      ensures forall k, j :: 0 <= k < |calls| && 0 <= j < |trace[k]| ==>
                Correct(trace[k][j], calls[k], |calls[k].s.lens| in Warmed(calls[..k]), ps, mb)
    {
      hide Correct, Valid, Step.Fits;
      trace := [];
      for k := 0 to |calls|
        invariant Valid() && wrappers == Warmed(calls[..k])
        invariant firstLayer == NoLayer || firstLayer == Layer(anchor)
        invariant |trace| == k
        invariant forall i :: 0 <= i < k ==> |trace[i]| == |calls[i].layers|
        invariant forall i, j :: 0 <= i < k && 0 <= j < |trace[i]| ==>
                    Correct(trace[i][j], calls[i], |calls[i].s.lens| in Warmed(calls[..i]), ps, mb)
      {
        var outs := RunStep(calls[k]);
        trace := trace + [outs];
        assert calls[..k + 1][..k] == calls[..k];
      }
      assert calls[..|calls|] == calls;
    }
  }

  /** One step's calls. */
  datatype Call = Call(layers: seq<int>, s: Step, capturing: bool) {
    ghost predicate Fits(ps: nat, mb: nat, maxBs: nat) {
      |layers| > 0 && s.Fits(ps, mb) && |s.lens| <= maxBs
    }
  }

  /** Batch sizes met in an eager step. */
  function Warmed(calls: seq<Call>): set<nat> {
    if calls == [] then {}
    else
      var last := calls[|calls| - 1];
      Warmed(calls[..|calls| - 1]) + (if last.capturing then {} else {|last.s.lens|})
  }

  /** Declined exactly when capturing an unwarmed batch size; otherwise the kernel saw this step. */
  ghost predicate Correct(r: Outcome, call: Call, warm: bool, ps: nat, mb: nat)
  {
    && call.s.Fits(ps, mb)
    && if call.capturing && !warm then r == Declined
       else r.Ran? && r.view.Shows(call.s, ps, mb)
  }

  /** A step laid out exactly as the worst-case plan assumes. */
  ghost predicate IsWorstCaseStep(s: Step, ps: nat, mb: nat)
    requires s.Fits(ps, mb)
  {
    forall i :: 0 <= i < |s.lens| ==> s.lens[i] == mb * ps && RowEnumerates(s, mb, i)
  }

  ghost predicate RowEnumerates(s: Step, mb: nat, i: nat)
    requires i < |s.lens| == |s.table| && |s.table[i]| == mb
  {
    forall j :: 0 <= j < mb ==> s.table[i][j] == i * mb + j
  }

  lemma FullPages(ps: nat, mb: nat)
    requires ps > 0
    ensures Pages(mb * ps, ps) == mb && LastPageLen(mb * ps, ps) == ps
  {
    DivIs(ps, mb * ps + ps - 1, mb, ps - 1);
    assert (mb - 1) * ps == mb * ps - ps;
  }

  lemma {:induction false} WorstTotals(s: Step, ps: nat, mb: nat, n: nat)
    requires s.Fits(ps, mb) && IsWorstCaseStep(s, ps, mb) && n <= |s.lens|
    ensures Total(s.lens, ps, n) == n * mb
    ensures forall x :: 0 <= x < n * mb ==> Compact(s, ps, mb, n)[x] == x
  {
    if n > 0 {
      WorstTotals(s, ps, mb, n - 1);
      FullPages(ps, mb);
      assert n * mb == (n - 1) * mb + mb;
      assert RowEnumerates(s, mb, n - 1);
    }
  }

  lemma WorstLen(len: nat, ps: nat, mb: nat)
    requires ps > 0 && Pages(len, ps) == mb && LastPageLen(len, ps) == ps
    ensures len == mb * ps
  {
    hide Pages;
    assert (mb - 1) * ps == mb * ps - ps;
  }

  lemma {:induction false} WorstPages(v: View, s: Step, ps: nat, mb: nat, i: nat)
    requires s.Fits(ps, mb) && v.WorstCase(|s.lens|, ps, mb) && v.Shows(s, ps, mb) && i < |s.lens|
    ensures Total(s.lens, ps, i) == i * mb && Total(s.lens, ps, i + 1) == i * mb + mb
    ensures s.lens[i] == mb * ps
  {
    hide Pages, Compact;
    assert v.kvi[i] == Total(s.lens, ps, i) && v.kvi[i + 1] == Total(s.lens, ps, i + 1);
    assert (i + 1) * mb == i * mb + mb;
    assert v.klp[i] == LastPageLen(s.lens[i], ps);
    WorstLen(s.lens[i], ps, mb);
  }

  lemma {:induction false} WorstRow(v: View, s: Step, ps: nat, mb: nat, i: nat)
    requires s.Fits(ps, mb) && v.WorstCase(|s.lens|, ps, mb) && v.Shows(s, ps, mb) && i < |s.lens|
    ensures s.lens[i] == mb * ps && RowEnumerates(s, mb, i)
  {
    hide Pages, Total, LastPageLen, Compact;
    var B := |s.lens|;
    WorstPages(v, s, ps, mb, i);
    CompactSlice(s, ps, mb, i, B);
    var ids := Compact(s, ps, mb, B);
    var lo := i * mb;
    FullPages(ps, mb);
    forall j | 0 <= j < mb ensures s.table[i][j] == lo + j {
      assert s.table[i][j] == ids[lo..lo + mb][j];
      assert v.kvidx[lo + j] == ids[lo + j];
      InsideRows(i, j, B, mb);
    }
  }

  lemma {:induction false} InsideRows(i: nat, j: nat, rows: nat, mb: nat)
    requires i < rows && j < mb
    ensures i * mb + j < rows * mb
  {
    MulMono(i + 1, rows, mb);
  }

  /** Outside that discipline - a layer other than the first plans a new batch size in mid-step - the
      kernel reads the worst-case plan, which is this step's metadata only if the step happens to be
      laid out exactly like the plan. */
  lemma {:induction false} WorstCaseIsStale(v: View, s: Step, ps: nat, mb: nat)
    requires s.Fits(ps, mb) && v.WorstCase(|s.lens|, ps, mb)
    ensures v.Shows(s, ps, mb) <==> IsWorstCaseStep(s, ps, mb)
  {
    var B := |s.lens|;
    if IsWorstCaseStep(s, ps, mb) {
      WorstTotals(s, ps, mb, B);
      FullPages(ps, mb);
      forall i | 0 <= i <= B ensures v.kvi[i] == Total(s.lens, ps, i) {
        WorstTotals(s, ps, mb, i);
      }
    }
    if v.Shows(s, ps, mb) {
      forall i | 0 <= i < B ensures s.lens[i] == mb * ps && RowEnumerates(s, mb, i) {
        WorstRow(v, s, ps, mb, i);
      }
    }
  }

  /** One request of 20 tokens in pages 7 and 8 of 16: the leftover plan sends it to pages 0 and 1, the last
      of them full instead of holding 4 tokens. */
  lemma {:induction false} LeftoverGoesWrong(v: View, s: Step)
    requires s == Step([[7, 8]], [20]) && v.WorstCase(1, 16, 2)
    ensures s.Fits(16, 2) && !v.Shows(s, 16, 2)
    ensures Compact(s, 16, 2, 1) == [7, 8] && v.kvidx[..2] == [0, 1]
    ensures LastPages(s.lens, 16) == [4] && v.klp == [16]
  {
    assert Pages(20, 16) == 2;
    assert Compact(s, 16, 2, 0) == [] && s.table[0][..2] == [7, 8];
  }
}
