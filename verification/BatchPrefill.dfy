/** The batched prefill state: one plan per step, one kernel call per layer, with the argument list
    recorded once and replayed afterwards. */
module BatchPrefill {
  import opened IndexArith
  import opened PageMeta
  import opened ReplayTemplate

  /** What plan() is handed. */
  datatype Inputs = Inputs(qo: seq<int>, kvIndptr: seq<int>, kvIndices: seq<int>, lastPage: seq<int>)

  datatype PlanResult = Fails | Gives(attrs: Attrs)

  /** One step's metadata, and what the wrapper's plan() does with it: it raises, or it replaces the
      wrapper's attributes. */
  datatype StepInfo = StepInfo(id: int, s: Step, mb: nat, qo: seq<int>, plan: PlanResult) {

    /** The plan cache key: identity, batch size, total query tokens, sum of lengths. */
    function Key(): (int, nat, int, nat) {
      (id, |s.lens|, if qo == [] then 0 else qo[|qo| - 1], Sum(s.lens))
    }

    function Meta(ps: nat): Inputs
      requires s.Fits(ps, mb)
    {
      Inputs(qo, Indptr(s.lens, ps), Compact(s, ps, mb, |s.lens|), LastPages(s.lens, ps))
    }

    /** What plan() is handed with the column constants at hand. */
    function Handed(ps: nat, col: seq<nat>): Inputs
      requires s.Fits(ps, mb) && |col| >= |s.lens| * mb
    {
      Inputs(qo, Indptr(s.lens, ps), ScatteredIds(s, col, ps, mb), LastPages(s.lens, ps))
    }
  }

  function Sum(lens: seq<nat>): nat {
    if lens == [] then 0 else Sum(lens[..|lens| - 1]) + lens[|lens| - 1]
  }

  /** The sum moves with every single length. */
  lemma {:induction false} SumAt(lens: seq<nat>, i: nat, n: nat)
    requires i < |lens|
    ensures Sum(lens[i := n]) == Sum(lens) - lens[i] + n
  {
    var last := |lens| - 1;
    if i < last {
      SumAt(lens[..last], i, n);
      assert lens[i := n][..last] == lens[..last][i := n];
    } else {
      assert lens[i := n][..last] == lens[..last];
    }
  }

  /** Steps under one identity - the code reuses identities - get different keys if they differ in the number
      of requests, in the number of query tokens, or in one request's length. */
  lemma {:induction false} KeysApart(a: StepInfo, b: StepInfo, i: nat)
    requires a.qo != [] && b.qo != []
    ensures a.Key() == b.Key() <==>
      && a.id == b.id && |a.s.lens| == |b.s.lens| && a.qo[|a.qo| - 1] == b.qo[|b.qo| - 1]
      && Sum(a.s.lens) == Sum(b.s.lens)
    ensures a.id != b.id ==> a.Key() != b.Key()
    ensures |a.s.lens| != |b.s.lens| ==> a.Key() != b.Key()
    ensures a.qo[|a.qo| - 1] != b.qo[|b.qo| - 1] ==> a.Key() != b.Key()
    ensures i < |a.s.lens| == |b.s.lens| && b.s.lens == a.s.lens[i := b.s.lens[i]] && b.s.lens[i] != a.s.lens[i] ==>
      a.Key() != b.Key()
  {
    hide Sum;
    if i < |a.s.lens| == |b.s.lens| {
      SumAt(a.s.lens, i, b.s.lens[i]);
    }
  }

  /** One request's token more and another's less under one identity: the key is the same, and the second step
      runs on the first one's plan. */
  lemma {:induction false} KeysCollide(a: StepInfo, b: StepInfo)
    requires a.id == b.id && a.qo == b.qo && a.s.lens == [1, 3] && b.s.lens == [2, 2]
    ensures a.Key() == b.Key()
  {
    assert [1, 3][..1] == [1] && [2, 2][..1] == [2] && [1][..0] == [] && [2][..0] == [];
    assert Sum([]) == 0 && Sum([1]) == 1 && Sum([2]) == 2;
  }

  /** Slots that no entry names keep their argument; a slot that one entry names takes that attribute. */
  lemma {:induction false} RefreshedAll(args: seq<Obj>, slots: seq<(nat, Attr)>, attrs: Attrs)
    requires forall p :: p in slots ==> p.0 < |args|
    ensures var t := Refresh(args, slots, attrs);
      && (forall j: nat :: j < |args| && (forall p :: p in slots ==> p.0 != j) ==> t[j] == args[j])
      && (forall p :: p in slots && (forall p' :: p' in slots && p'.0 == p.0 ==> p' == p) ==> t[p.0] == attrs.Get(p.1))
    decreases |slots|
  {
    if slots != [] {
      var first, rest := slots[0], slots[1..];
      var next := args[first.0 := attrs.Get(first.1)];
      RefreshedAll(next, rest, attrs);
      assert forall p :: p in slots <==> p == first || p in rest;
    }
  }

  /** The refresh loop over the recorded slots. */
  method RefreshSlots(args: seq<Obj>, slots: seq<(nat, Attr)>, attrs: Attrs) returns (t: seq<Obj>)
    requires forall p :: p in slots ==> p.0 < |args|
    ensures t == Refresh(args, slots, attrs)
    ensures forall j: nat :: j < |args| && (forall p :: p in slots ==> p.0 != j) ==> t[j] == args[j]
    ensures forall p :: p in slots && (forall p' :: p' in slots && p'.0 == p.0 ==> p' == p) ==> t[p.0] == attrs.Get(p.1)
  {
    t := args;
    for i := 0 to |slots|
      invariant |t| == |args|
      invariant Refresh(t, slots[i..], attrs) == Refresh(args, slots, attrs)
    {
      var p := slots[i];
      assert slots[i..][0] == p && slots[i..][1..] == slots[i + 1..];
      t := t[p.0 := attrs.Get(p.1)];
    }
    RefreshedAll(args, slots, attrs);
  }

  datatype Planned = NoPlan | Planned(key: (int, nat, int, nat))

  datatype Outcome = Declined | Ran(args: seq<Obj>, inputs: Inputs)

  class State {
    const ps: nat
    /** Argument layout of the wrapper's full run; any. */
    const layout: seq<Slot>
    var col: seq<nat>
    var scatter: array<int>
    /** The table width the column constants were built for, and how many rows they cover. */
    ghost var colMb: nat
    ghost var colRows: nat
    var tmpl: Template
    var planned: Planned
    /** The wrapper's own state: its attributes and the inputs of its last plan. */
    var attrs: Attrs
    var inputs: Inputs

    ghost predicate Valid()
      reads this
    {
      && ps > 0
      && |col| == colRows * colMb && IsColumns(col, colMb, colRows)
      && (col != [] ==> scatter.Length == |col| + 1)
      && (tmpl.Recorded? ==> planned.Planned? && Faithful(tmpl, layout, attrs))
    }

    constructor (ps: nat, layout: seq<Slot>, attrs: Attrs)
      requires ps > 0
      ensures Valid() && fresh(scatter) && this.ps == ps && this.layout == layout
      ensures col == [] && tmpl == NoTemplate && planned == NoPlan
    {
      this.ps, this.layout, this.attrs := ps, layout, attrs;
      col, colMb, colRows := [], 0, 0;
      scatter := new int[1](_ => 0);
      tmpl, planned, inputs := NoTemplate, NoPlan, Inputs([], [], [], []);
    }

    /** The column constants, when large enough, are reused whatever the table's width; that is right when
        they serve it. */
    ghost predicate WidthKept(step: StepInfo)
      reads this`col
    {
      |col| >= |step.s.lens| * step.mb ==> Serve(col, ps, step.mb, |step.s.lens|)
    }

    ghost predicate WidthIs(mb: nat)
      reads this`col, this`colMb
    {
      col == [] || colMb == mb
    }

    /** Column constants and scatter buffer for at least B rows of mb pages. */
    method EnsureColumns(B: nat, mb: nat)
      requires Valid()
      modifies this`col, this`scatter, this`colMb, this`colRows
      ensures Valid() && |col| >= B * mb && scatter.Length > B * mb
      ensures old(|col| >= B * mb ==> Serve(col, ps, mb, B)) ==> Serve(col, ps, mb, B)
      ensures scatter == old(scatter) || fresh(scatter)
      ensures old(WidthIs(mb)) ==> WidthIs(mb)
    {
      if col == [] || |col| < B * mb {
        var n := if B < 8 then 8 else B;
        MulMono(B, n, mb);
        col := Columns(mb, n);
        colMb, colRows := mb, n;
        FewerColumns(col, mb, n, B);
        ColumnsServe(col, ps, mb, B);
        scatter := new int[n * mb + 1](_ => 0);
      }
    }

    /** The inputs of a new plan. */
    method NewInputs(step: StepInfo) returns (given: Inputs)
      requires Valid() && step.s.Fits(ps, step.mb)
      modifies this`col, this`scatter, this`colMb, this`colRows, scatter
      ensures Valid() && (scatter == old(scatter) || fresh(scatter))
      ensures old(WidthIs(step.mb)) ==> WidthIs(step.mb)
      ensures |col| >= |step.s.lens| * step.mb && given == step.Handed(ps, col)
      ensures old(WidthKept(step)) ==> given == step.Meta(ps)
    {
      hide IsColumns, Serve, Total, Step.Fits;
      var B := |step.s.lens|;
      StepFits(step, ps);
      EnsureColumns(B, step.mb);
      Scatter(step.s, ps, step.mb, col, scatter);
      var total := Total(step.s.lens, ps, B);
      TotalBound(step.s, ps, step.mb, B);
      given := Inputs(step.qo, Indptr(step.s.lens, ps), scatter[..total], LastPages(step.s.lens, ps));
      if Serve(col, ps, step.mb, B) {
        HandedMeta(step, ps, col);
      }
    }

    /** `plan_step`: plan once per key, refresh the recorded slots. */
    method PlanStep(step: StepInfo) returns (ok: bool)
      requires Valid() && step.s.Fits(ps, step.mb)
      modifies this`col, this`scatter, this`colMb, this`colRows, this`tmpl, this`planned, this`attrs, this`inputs,
          scatter
      ensures Valid() && (scatter == old(scatter) || fresh(scatter))
      ensures old(WidthIs(step.mb)) ==> WidthIs(step.mb)
      ensures ok <==> old(planned) == Planned(step.Key()) || step.plan.Gives?
      ensures old(planned) == Planned(step.Key()) || !ok ==>
        tmpl == old(tmpl) && planned == old(planned) && attrs == old(attrs) && inputs == old(inputs)
      ensures ok && old(planned) != Planned(step.Key()) ==>
        && planned == Planned(step.Key()) && attrs == step.plan.attrs
        && |col| >= |step.s.lens| * step.mb && inputs == step.Handed(ps, col)
        && (old(WidthKept(step)) ==> inputs == step.Meta(ps))
        && tmpl == if old(tmpl).NoTemplate? then NoTemplate
                   else old(tmpl).(args := Refresh(old(tmpl).args, old(tmpl).slots, attrs))
    {
      hide IsColumns, Serve, Step.Fits, Faithful, StepInfo.Handed, StepInfo.Meta, StepInfo.Key, Refresh, WidthKept,
          WidthIs;
      if planned == Planned(step.Key()) {
        return true;
      }
      var given := NewInputs(step);
      if step.plan.Fails? {
        return false;
      }
      inputs, attrs := given, step.plan.attrs;
      if tmpl.Recorded? {
        RefreshFaithful(tmpl, layout, old(attrs), attrs);
        var t := RefreshSlots(tmpl.args, tmpl.slots, attrs);
        tmpl := tmpl.(args := t);
      }
      planned := Planned(step.Key());
      return true;
    }

    /** `run_fast`: record on the first call ever, replay afterwards. Returns the arguments the kernel
        received. */
    method RunFast(call: Call) returns (args: seq<Obj>)
      requires Valid() && planned.Planned? && OnceEach(layout)
      requires tmpl.NoTemplate? ==> Unshared(layout, attrs, call)
      modifies this`tmpl
      ensures Valid()
      ensures args == FullArgs(layout, attrs, call)
      ensures tmpl == if old(tmpl).Recorded? then old(tmpl).(args := args) else Record(args, attrs, call)
    {
      if tmpl.Recorded? {
        ReplayIsFull(tmpl, layout, attrs, call);
        args := Replay(tmpl, call);
        tmpl := tmpl.(args := args);
      } else {
        args := FullArgs(layout, attrs, call);
        tmpl := Record(args, attrs, call);
        if tmpl.Recorded? {
          RecordsExactly(layout, attrs, call);
          RecordFaithful(layout, attrs, call);
        }
      }
    }

    /** One layer of one step, as `_batch_prefill_run` issues it. */
    method Layer(step: StepInfo, call: Call) returns (r: Outcome)
      requires Valid() && OnceEach(layout) && step.s.Fits(ps, step.mb) && WidthKept(step)
      requires step.plan.Gives? && tmpl.NoTemplate? ==> Unshared(layout, step.plan.attrs, call)
      requires Current(step)
      modifies this`col, this`scatter, this`colMb, this`colRows, this`tmpl, this`planned, this`attrs, this`inputs,
          scatter
      ensures Valid() && (scatter == old(scatter) || fresh(scatter))
      ensures Current(step) && (old(WidthIs(step.mb)) ==> WidthIs(step.mb))
      ensures Right(step, call, r)
      ensures planned == if step.plan.Fails? then old(planned) else Planned(step.Key())
      ensures tmpl.NoTemplate? <==> old(tmpl).NoTemplate? && !Recordable(step, call)
    {
      var ok := PlanStep(step);
      if !ok {
        return Declined;
      }
      var args := RunFast(call);
      r := Ran(args, inputs);
    }

    /** The call would be recorded. */
    ghost predicate Recordable(step: StepInfo, call: Call) {
      step.plan.Gives? && Record(FullArgs(layout, step.plan.attrs, call), step.plan.attrs, call).Recorded?
    }

    /** No call before call j of step k was recorded. */
    ghost predicate Unrecorded(steps: seq<(StepInfo, seq<Call>)>, k: nat, j: nat)
      requires k <= |steps|
    {
      forall k', j' :: 0 <= k' < |steps| && 0 <= j' < |steps[k'].1| && (k' < k || (k' == k && j' < j)) ==>
        !Recordable(steps[k'].0, steps[k'].1[j'])
    }

    /** If the cached plan carries this step's key, it is this step's plan. */
    ghost predicate Current(step: StepInfo)
      reads this
      requires step.s.Fits(ps, step.mb)
    {
      planned == Planned(step.Key()) ==> step.plan == Gives(attrs) && inputs == step.Meta(ps)
    }

    lemma KeptWidth(step: StepInfo)
      requires Valid() && WidthIs(step.mb)
      ensures WidthKept(step)
    {
      var B := |step.s.lens|;
      if |col| >= B * step.mb {
        if col == [] {
          NoColumns(col, step.mb, B);
        } else if step.mb > 0 {
          if colRows < B {
            MulMono(colRows + 1, B, step.mb);
          }
          FewerColumns(col, step.mb, colRows, B);
        }
        ColumnsServe(col, ps, step.mb, B);
      }
    }

    /** A whole run: any number of steps with pairwise distinct keys on tables of one width, each with
        any number of layers. A step whose plan raises is declined in every layer and leaves no trace;
        in every other step every layer's kernel receives exactly what the full call would pass, on a
        plan made from the step's own metadata. */
    method RunAll(mb: nat, steps: seq<(StepInfo, seq<Call>)>) returns (trace: seq<seq<Outcome>>)
      requires Valid() && col == [] && tmpl.NoTemplate? && planned == NoPlan && OnceEach(layout)
      requires forall k :: 0 <= k < |steps| ==> steps[k].0.mb == mb && steps[k].0.s.Fits(ps, mb)
      requires forall i, k :: 0 <= i < k < |steps| ==> steps[i].0.Key() != steps[k].0.Key()
      requires forall k, j ::
        0 <= k < |steps| && 0 <= j < |steps[k].1| && steps[k].0.plan.Gives? && Unrecorded(steps, k, j) ==>
                 Unshared(layout, steps[k].0.plan.attrs, steps[k].1[j])
      modifies this`col, this`scatter, this`colMb, this`colRows, this`tmpl, this`planned, this`attrs, this`inputs,
          scatter
      ensures |trace| == |steps| && forall k :: 0 <= k < |steps| ==> |trace[k]| == |steps[k].1|
      ensures forall k, j :: 0 <= k < |steps| && 0 <= j < |trace[k]| ==> Right(steps[k].0, steps[k].1[j], trace[k][j])
    {
      hide Right, StepInfo.Meta, Valid, Unshared, OnceEach, Recordable, Serve;
      trace := [];
      for k := 0 to |steps|
        invariant Valid() && WidthIs(mb) && (scatter == old(scatter) || fresh(scatter))
        invariant planned.NoPlan? || exists i :: 0 <= i < k && planned == Planned(steps[i].0.Key())
        invariant tmpl.NoTemplate? ==> Unrecorded(steps, k, 0)
        invariant |trace| == k && forall i :: 0 <= i < k ==> |trace[i]| == |steps[i].1|
        invariant forall i, j :: 0 <= i < k && 0 <= j < |trace[i]| ==> Right(steps[i].0, steps[i].1[j], trace[i][j])
      {
        var (step, calls) := steps[k];
        assert planned != Planned(step.Key());
        ghost var was := planned;
        var outs := [];
        for j := 0 to |calls|
          invariant Valid() && WidthIs(mb) && Current(step) && (scatter == old(scatter) || fresh(scatter))
          invariant planned == was || planned == Planned(step.Key())
          invariant tmpl.NoTemplate? ==> Unrecorded(steps, k, j)
          invariant |outs| == j && forall i :: 0 <= i < j ==> Right(step, calls[i], outs[i])
        {
          KeptWidth(step);
          var r := Layer(step, calls[j]);
          outs := outs + [r];
        }
        trace := trace + [outs];
      }
    }

    ghost predicate Right(step: StepInfo, call: Call, r: Outcome) {
      && step.s.Fits(ps, step.mb)
      && match step.plan
         case Fails => r == Declined
         case Gives(a) => r == Ran(FullArgs(layout, a, call), step.Meta(ps))
    }
  }

  lemma StepFits(step: StepInfo, ps: nat)
    requires step.s.Fits(ps, step.mb)
    ensures ps > 0 && |step.s.table| == |step.s.lens|
  {
  }

  lemma HandedMeta(step: StepInfo, ps: nat, col: seq<nat>)
    requires step.s.Fits(ps, step.mb) && |col| >= |step.s.lens| * step.mb && Serve(col, ps, step.mb, |step.s.lens|)
    ensures step.Handed(ps, col) == step.Meta(ps)
  {
    assert Served(step.s, col, ps, step.mb);
  }

  lemma NoColumns(col: seq<nat>, mb: nat, rows: nat)
    requires col == [] && 0 >= rows * mb
    ensures IsColumns(col, mb, rows)
  {
    if rows > 0 && mb > 0 {
      MulMono(1, rows, mb);
    }
  }

  /** arange(mb).repeat(n) */
  function Columns(mb: nat, n: nat): (col: seq<nat>)
    ensures |col| == n * mb && IsColumns(col, mb, n)
  {
    if n == 0 then []
    else
      var before := Columns(mb, n - 1);
      OneMoreRow(before, mb, n);
      before + Arange(mb)
  }

  function Arange(n: nat): (r: seq<nat>)
    ensures |r| == n && forall j :: 0 <= j < n ==> r[j] == j
  {
    seq(n, j => j)
  }

  lemma OneMoreRow(col: seq<nat>, mb: nat, n: nat)
    requires n > 0 && |col| == (n - 1) * mb && IsColumns(col, mb, n - 1)
    ensures |col + Arange(mb)| == n * mb && IsColumns(col + Arange(mb), mb, n)
  {
    var all := col + Arange(mb);
    assert n * mb == (n - 1) * mb + mb;
    forall i: nat, j: nat | i < n && j < mb ensures ColumnAt(all, mb, i, j) {
      if i < n - 1 {
        assert ColumnAt(col, mb, i, j);
      }
    }
  }

  lemma RowColsAt(col: seq<nat>, mb: nat, rows: nat, i: nat, j: nat, k: nat)
    requires |col| >= rows * mb && i < rows && j < mb && k == i * mb + j
    ensures k < |col| && RowCols(col, mb, rows, i)[j] == col[k]
  {
    RowsBelow(i, rows, mb);
    var off := i * mb;
    assert RowCols(col, mb, rows, i) == col[off..off + mb];
    assert col[off..off + mb][j] == col[off + j];
  }

  lemma SmallMod(a: nat, b: nat)
    requires a < b
    ensures a % b == a
  {
  }

  lemma StaleFirst(col: seq<nat>, mb0: nat, rows0: nat, j: nat)
    requires IsColumns(col, mb0, rows0) && |col| == rows0 * mb0 && j < |col|
    ensures mb0 > 0 && col[j] == j % mb0 <= j
  {
    assert rows0 > 0 && mb0 > 0;
    assert j == j / mb0 * mb0 + j % mb0;
    DivBelow(j, mb0, rows0);
    assert ColumnAt(col, mb0, j / mb0, j % mb0);
  }

  /** Column constants built for width mb0 and reused for another width hand plan() the right page ids, for
      every table and all lengths, exactly when the width is the same or the table has one row. */
  lemma StaleColumns(col: seq<nat>, mb0: nat, rows0: nat, ps: nat, mb: nat, rows: nat)
    requires |col| == rows0 * mb0 >= rows * mb && IsColumns(col, mb0, rows0)
    requires rows > 0 && mb > 0 && ps > 0
    ensures Serve(col, ps, mb, rows) <==> mb == mb0 || rows == 1
  {
    hide Serve, IsColumns, RowCols;
    MulMono(1, rows, mb);
    StaleFirst(col, mb0, rows0, 0);
    if mb == mb0 {
      if rows0 < rows {
        MulMono(rows0 + 1, rows, mb);
      }
      FewerColumns(col, mb, rows0, rows);
      ColumnsServe(col, ps, mb, rows);
    } else if rows == 1 {
      forall j | 0 <= j < mb ensures col[j] <= j {
        StaleFirst(col, mb0, rows0, j);
      }
      SingleRowServed(col, ps, mb);
    } else if mb < mb0 {
      MulMono(2, rows, mb);
      StaleFirst(col, mb0, rows0, mb);
      RowColsAt(col, mb, rows, 1, 0, mb);
      SmallMod(mb, mb0);
      FirstPageLost(col, ps, mb, rows);
    } else {
      StaleFirst(col, mb0, rows0, mb0);
      RowColsAt(col, mb, rows, 0, 0, 0);
      RowColsAt(col, mb, rows, 0, mb0, mb0);
      PageTooMany(col, ps, mb, rows, mb0);
    }
  }
}
