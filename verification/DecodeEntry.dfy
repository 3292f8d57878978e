/** The head-512 decode entry point: it creates the decode state and the per-batch-size wrappers or
    buffers on eager calls only, declines a capturing call for a size not yet met, and falls back to
    the eager gather otherwise. */
module DecodeEntry {

  /** The process-global state of a head size: none yet, the FlashInfer one with its planned batch
      sizes, or the XQA one with its module and per-size buffers. */
  datatype DecodeState = Uninit | Fi(wrappers: set<nat>) | Xqa(module_: bool, bufs: set<nat>) {

    /** A capturing call for batch size B finds everything it needs. */
    predicate Warm(B: nat) {
      match this
      case Uninit => false
      case Fi(w) => B in w
      case Xqa(m, b) => m && B in b
    }

    /** What an eager run for batch size B adds. */
    function Warmed(B: nat): DecodeState {
      match this
      case Uninit => Uninit
      case Fi(w) => Fi(w + {B})
      case Xqa(_, b) => Xqa(true, b + {B})
    }
  }

  datatype Path = FromState | EagerGather | Declined

  datatype Call = Call(B: nat, capturing: bool)

  class Entry {
    const hasFi: bool
    const sized: bool
    const useXqa: bool
    var st: DecodeState

    constructor (hasFi: bool, sized: bool, useXqa: bool)
      ensures this.hasFi == hasFi && this.sized == sized && this.useXqa == useXqa && st == Uninit
    {
      this.hasFi, this.sized, this.useXqa, st := hasFi, sized, useXqa, Uninit;
    }

    /** The state's own run for one call: declines exactly a capturing call it is not warm for, and
        builds only when eager. */
    method StateRun(c: Call) returns (declined: bool)
      requires !st.Uninit?
      modifies this`st
      ensures declined <==> c.capturing && !old(st).Warm(c.B)
      ensures st == if c.capturing then old(st) else old(st).Warmed(c.B)
    {
      match st {
      case Fi(w) =>
        if c.B !in w {
          if c.capturing {
            return true;
          }
          st := Fi(w + {c.B});
        } else {
          assert w + {c.B} == w;
        }
      case Xqa(m, b) =>
        if (!m || c.B !in b) && c.capturing {
          return true;
        }
        if !m {
          st := Xqa(true, b);
        }
        if c.B !in b {
          st := Xqa(true, b + {c.B});
        } else {
          assert b + {c.B} == b;
        }
      }
      return false;
    }

    /** `decode_hd512`. While capturing nothing is created. The eager path - which synchronises with the
        device and so cannot be captured - is taken under capture exactly when no state exists. */
    method DecodeHd512(c: Call) returns (p: Path)
      modifies this`st
      ensures c.capturing ==> st == old(st)
      ensures !c.capturing && hasFi && (sized || !old(st).Uninit?) ==> p == FromState && st.Warm(c.B)
      ensures p == Declined <==> !hasFi || (c.capturing && !old(st).Uninit? && !old(st).Warm(c.B))
      ensures c.capturing && p == EagerGather <==> c.capturing && hasFi && old(st).Uninit?
      ensures forall B :: old(st).Warm(B) ==> st.Warm(B)
    {
      if !hasFi {
        return Declined;
      }
      if st.Uninit? && sized && !c.capturing {
        st := if useXqa then Xqa(false, {}) else Fi({});
      }
      if !st.Uninit? {
        var declined := StateRun(c);
        if !declined {
          return FromState;
        }
        if c.capturing {
          return Declined;
        }
      }
      return EagerGather;
    }

    /** A warmup followed by captures, interleaved in any way: once a batch size has had an eager call,
        every later capture of that size runs from the state, and no capture ever builds anything. */
    method RunAll(calls: seq<Call>) returns (paths: seq<Path>, built: seq<bool>)
      requires hasFi && sized && st == Uninit
      modifies this`st
      ensures |paths| == |built| == |calls|
      ensures forall k :: 0 <= k < |calls| && calls[k].capturing ==> !built[k]
      ensures forall j, k :: 0 <= j < k < |calls| && !calls[j].capturing && calls[k].B == calls[j].B ==>
        paths[k] == FromState
    {
      paths, built := [], [];
      for k := 0 to |calls|
        invariant |paths| == |built| == k
        invariant forall i :: 0 <= i < k && calls[i].capturing ==> !built[i]
        invariant forall j :: 0 <= j < k && !calls[j].capturing ==> st.Warm(calls[j].B)
        invariant forall j, i :: 0 <= j < i < k && !calls[j].capturing && calls[i].B == calls[j].B ==>
          paths[i] == FromState
      {
        var before := st;
        var p := DecodeHd512(calls[k]);
        paths, built := paths + [p], built + [st != before];
      }
    }
  }
}
