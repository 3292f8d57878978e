/** The routing table: per-call key to the ordered kernels that may run it. */
module Dispatch {

  datatype Phase = PREFILL | DECODE | VERIFY | OTHER

  datatype QSrc = HALF | BF16 | OTHER_SRC

  datatype Key = Key(phase: Phase, headDim: nat, qSrc: QSrc, kvQuantized: bool, plainDecoder: bool)

  datatype Leg = Fp16pv | Bf16cvt | XqaVerify | Sage

  datatype Entry = Entry(leg: Leg, captureSafe: bool)

  /** A row's structural condition; every row also asks for a plain decoder and an unquantised cache. */
  datatype Matcher = Matcher(phase: Phase, heads: set<nat>, src: set<QSrc>) {
    predicate Matches(k: Key) {
      k.phase == phase && k.headDim in heads && k.plainDecoder && !k.kvQuantized && k.qSrc in src
    }
  }

  const ANY_SRC: set<QSrc> := {HALF, BF16, OTHER_SRC}

  const DEFAULT_ROWS: seq<(Matcher, Entry)> := [
    (Matcher(PREFILL, {128, 256, 512}, {HALF}), Entry(Fp16pv, false)),
    (Matcher(PREFILL, {128, 256, 512}, {BF16}), Entry(Bf16cvt, false)),
    (Matcher(VERIFY, {64, 128, 256}, ANY_SRC), Entry(XqaVerify, true)),
    (Matcher(PREFILL, {64, 96, 128}, ANY_SRC), Entry(Sage, false))]

  /** The entries of all matching rows, in table order. */
  function Resolve(rows: seq<(Matcher, Entry)>, k: Key): (r: seq<Entry>)
  {
    if rows == [] then []
    else (if rows[0].0.Matches(k) then [rows[0].1] else []) + Resolve(rows[1..], k)
  }

  function MatchesBefore(rows: seq<(Matcher, Entry)>, k: Key, i: nat): nat
    requires i <= |rows|
  {
    if i == 0 then 0 else MatchesBefore(rows, k, i - 1) + if rows[i - 1].0.Matches(k) then 1 else 0
  }

  lemma {:induction false} MatchesShift(rows: seq<(Matcher, Entry)>, k: Key, i: nat)
    requires 0 < i <= |rows|
    ensures MatchesBefore(rows, k, i) == MatchesBefore(rows[1..], k, i - 1) + if rows[0].0.Matches(k) then 1 else 0
  {
    if i > 1 {
      MatchesShift(rows, k, i - 1);
    } else {
      assert MatchesBefore(rows, k, 0) == 0;
    }
  }

  /** Each matching row has its place: behind the entries of the matching rows before it, and there are no
      other entries. */
  lemma {:induction false} ResolvedAt(rows: seq<(Matcher, Entry)>, k: Key, i: nat)
    requires i < |rows|
    ensures |Resolve(rows, k)| == MatchesBefore(rows, k, |rows|)
    ensures rows[i].0.Matches(k) ==> MatchesBefore(rows, k, i) < |Resolve(rows, k)|
                                     && Resolve(rows, k)[MatchesBefore(rows, k, i)] == rows[i].1
  {
    MatchesShift(rows, k, |rows|);
    if i > 0 {
      MatchesShift(rows, k, i);
      ResolvedAt(rows[1..], k, i - 1);
    } else if |rows| > 1 {
      ResolvedAt(rows[1..], k, 0);
    }
  }

  lemma {:induction false} ResolvedFrom(rows: seq<(Matcher, Entry)>, k: Key, e: Entry)
    ensures e in Resolve(rows, k) <==> exists i :: 0 <= i < |rows| && rows[i].0.Matches(k) && rows[i].1 == e
  {
    if rows != [] {
      ResolvedFrom(rows[1..], k, e);
      forall i | 0 <= i < |rows[1..]| ensures rows[1..][i] == rows[i + 1] {
      }
      if i :| 0 < i < |rows| && rows[i].0.Matches(k) && rows[i].1 == e {
        assert rows[1..][i - 1] == rows[i];
      }
    }
  }

  /** The global table, as the module keeps it. */
  class Table {
    var rows: seq<(Matcher, Entry)>

    constructor ()
      ensures rows == []
    {
      rows := [];
    }

    method Register(m: Matcher, e: Entry)
      modifies this
      ensures rows == old(rows) + [(m, e)]
    {
      rows := rows + [(m, e)];
    }

    method Clear()
      modifies this
      ensures rows == []
    {
      rows := [];
    }

    /** Reinstalling is idempotent: whatever was registered before, the default rows remain. */
    method BuildDefaultTable()
      modifies this
      ensures rows == DEFAULT_ROWS
    {
      Clear();
      Register(Matcher(PREFILL, {128, 256, 512}, {HALF}), Entry(Fp16pv, false));
      Register(Matcher(PREFILL, {128, 256, 512}, {BF16}), Entry(Bf16cvt, false));
      Register(Matcher(VERIFY, {64, 128, 256}, ANY_SRC), Entry(XqaVerify, true));
      Register(Matcher(PREFILL, {64, 96, 128}, ANY_SRC), Entry(Sage, false));
    }
  }

  /** What the default table offers for a call: a leg exactly for the phase, dtype and head sizes it was
      written for, on plain decoder layers with an unquantised cache; and only the verify leg may be
      captured. */
  lemma OfferedFor(k: Key, e: Entry)
    ensures e in Resolve(DEFAULT_ROWS, k) <==>
      k.plainDecoder && !k.kvQuantized && (
        || (e == Entry(Fp16pv, false) && k.phase == PREFILL && k.headDim in {128, 256, 512} && k.qSrc == HALF)
        || (e == Entry(Bf16cvt, false) && k.phase == PREFILL && k.headDim in {128, 256, 512} && k.qSrc == BF16)
        || (e == Entry(XqaVerify, true) && k.phase == VERIFY && k.headDim in {64, 128, 256})
        || (e == Entry(Sage, false) && k.phase == PREFILL && k.headDim in {64, 96, 128}))
  {
    ResolvedFrom(DEFAULT_ROWS, k, e);
    var rows := DEFAULT_ROWS;
    assert k.qSrc in ANY_SRC by {
      assert k.qSrc == HALF || k.qSrc == BF16 || k.qSrc == OTHER_SRC;
    }
    if i :| 0 <= i < |rows| && rows[i].0.Matches(k) && rows[i].1 == e {
      assert i == 0 || i == 1 || i == 2 || i == 3;
    }
    assert rows[0].0 == Matcher(PREFILL, {128, 256, 512}, {HALF}) && rows[0].1 == Entry(Fp16pv, false);
    assert rows[1].0 == Matcher(PREFILL, {128, 256, 512}, {BF16}) && rows[1].1 == Entry(Bf16cvt, false);
    assert rows[2].0 == Matcher(VERIFY, {64, 128, 256}, ANY_SRC) && rows[2].1 == Entry(XqaVerify, true);
    assert rows[3].0 == Matcher(PREFILL, {64, 96, 128}, ANY_SRC) && rows[3].1 == Entry(Sage, false);
  }
}
