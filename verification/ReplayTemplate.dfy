/** The record-and-replay argument template of the batched prefill: the first call's arguments are
    recorded, and later calls pass the recorded list with only the four per-layer tensors and the
    plan-dependent slots swapped. */
module ReplayTemplate {

  /** A Python object: a tensor has an identity, a data pointer and a shape. */
  datatype Obj = NoneObj | Tensor(id: nat, ptr: nat, shape: seq<nat>) | Other(id: nat)

  /** `v is x`, or both are tensors over the same memory with the same shape. */
  predicate Alias(v: Obj, x: Obj) {
    v == x || (v.Tensor? && x.Tensor? && v.ptr == x.ptr && v.shape == x.shape)
  }

  datatype Attr = PlanInfo | QoIndptr | KvIndptr | KvIndices | LastPageLen

  const ATTRS: seq<Attr> := [PlanInfo, QoIndptr, KvIndptr, KvIndices, LastPageLen]

  /** The wrapper attributes that plan() replaces. */
  datatype Attrs = Attrs(planInfo: Obj, qoIndptr: Obj, kvIndptr: Obj, kvIndices: Obj, lastPageLen: Obj) {
    function Get(a: Attr): Obj {
      match a
      case PlanInfo => planInfo
      case QoIndptr => qoIndptr
      case KvIndptr => kvIndptr
      case KvIndices => kvIndices
      case LastPageLen => lastPageLen
    }
  }

  /** One layer's tensors. */
  datatype Call = Call(q: Obj, k: Obj, v: Obj, out: Obj)

  /** What the full wrapper.run puts at one position of the kernel's argument list. */
  datatype Slot = Query | KeyCache | ValueCache | Out | Plan(attr: Attr) | Fixed(obj: Obj)

  function ArgOf(s: Slot, attrs: Attrs, call: Call): Obj {
    match s
    case Query => call.q
    case KeyCache => call.k
    case ValueCache => call.v
    case Out => call.out
    case Plan(a) => attrs.Get(a)
    case Fixed(o) => o
  }

  /** The arguments the full wrapper.run passes. */
  function FullArgs(layout: seq<Slot>, attrs: Attrs, call: Call): (a: seq<Obj>)
    ensures |a| == |layout| && forall j :: 0 <= j < |a| ==> a[j] == ArgOf(layout[j], attrs, call)
  {
    seq(|layout|, j requires 0 <= j < |layout| => ArgOf(layout[j], attrs, call))
  }

  /** Index of the first argument that is x, or -1. */
  function Find(a: seq<Obj>, x: Obj, from: nat): (i: int)
    requires from <= |a|
    ensures i == -1 || from <= i < |a|
    ensures i >= 0 ==> Alias(a[i], x) && forall j :: from <= j < i ==> !Alias(a[j], x)
    ensures i < 0 ==> forall j :: from <= j < |a| ==> !Alias(a[j], x)
    decreases |a| - from
  {
    if from == |a| then -1
    else if Alias(a[from], x) then from
    else Find(a, x, from + 1)
  }

  /** Every position that holds exactly obj, paired with the attribute it came from. */
  function Occurrences(a: seq<Obj>, obj: Obj, attr: Attr, from: nat): (slots: seq<(nat, Attr)>)
    requires from <= |a|
    ensures forall p :: p in slots <==> p.1 == attr && from <= p.0 < |a| && a[p.0] == obj
    decreases |a| - from
  {
    if from == |a| then []
    else (if a[from] == obj then [(from, attr)] else []) + Occurrences(a, obj, attr, from + 1)
  }

  lemma OccursIff(a: seq<Obj>, obj: Obj, attr: Attr)
    ensures Occurrences(a, obj, attr, 0) != [] <==> obj in a
  {
    var slots := Occurrences(a, obj, attr, 0);
    if slots != [] {
      assert slots[0] in slots && a[slots[0].0] == obj;
    }
    if obj in a {
      var j :| 0 <= j < |a| && a[j] == obj;
      assert (j, attr) in slots;
    }
  }

  datatype Slots = NotAll | AllFound(slots: seq<(nat, Attr)>)

  /** Occurrences of every attribute from the i-th on; fails when one is None or absent. */
  function PlanSlots(a: seq<Obj>, attrs: Attrs, i: nat): (r: Slots)
    requires i <= |ATTRS|
    ensures r.AllFound? ==>
      forall p :: p in r.slots <==> p.0 < |a| && p.1 in ATTRS[i..] && a[p.0] == attrs.Get(p.1)
    ensures r.AllFound? <==> forall x :: x in ATTRS[i..] ==> !attrs.Get(x).NoneObj? && attrs.Get(x) in a
    decreases |ATTRS| - i
  {
    if i == |ATTRS| then AllFound([])
    else
      var obj := attrs.Get(ATTRS[i]);
      var found := if obj.NoneObj? then [] else Occurrences(a, obj, ATTRS[i], 0);
      assert ATTRS[i..] == [ATTRS[i]] + ATTRS[i + 1..];
      OccursIff(a, obj, ATTRS[i]);
      if found == [] then NotAll
      else
        var rest := PlanSlots(a, attrs, i + 1);
        if rest.NotAll? then NotAll
        else AllFound(found + rest.slots)
  }

  datatype Template = NoTemplate | Recorded(args: seq<Obj>, iq: nat, ik: nat, iv: nat, io: nat, slots: seq<(nat, Attr)>)

  /** What run_fast keeps of the recorded first call. */
  function Record(a: seq<Obj>, attrs: Attrs, call: Call): (t: Template)
    ensures t.Recorded? ==> t.args == a && Fits(t)
  {
    var iq, ik, iv, io := Find(a, call.q, 0), Find(a, call.k, 0), Find(a, call.v, 0), Find(a, call.out, 0);
    var found := PlanSlots(a, attrs, 0);
    if found.AllFound? && iq >= 0 && ik >= 0 && iv >= 0 && io >= 0 then
      Recorded(a, iq, ik, iv, io, found.slots)
    else NoTemplate
  }

  predicate Fits(t: Template)
    requires t.Recorded?
  {
    && t.iq < |t.args| && t.ik < |t.args| && t.iv < |t.args| && t.io < |t.args|
    && forall p :: p in t.slots ==> p.0 < |t.args|
  }

  /** plan_step's refresh: every recorded slot takes its attribute's new object. */
  function Refresh(args: seq<Obj>, slots: seq<(nat, Attr)>, attrs: Attrs): (r: seq<Obj>)
    requires forall p :: p in slots ==> p.0 < |args|
    ensures |r| == |args|
    decreases |slots|
  {
    if slots == [] then args
    else
      assert slots[0] in slots;
      Refresh(args[slots[0].0 := attrs.Get(slots[0].1)], slots[1..], attrs)
  }

  /** run_fast's replay: swap the four per-layer tensors. */
  function Replay(t: Template, call: Call): (a: seq<Obj>)
    requires t.Recorded? && Fits(t)
    ensures |a| == |t.args|
  {
    t.args[t.iq := call.q][t.ik := call.k][t.iv := call.v][t.io := call.out]
  }

  // ---- when replay is the full call ----

  /** While recording, an object that is looked for sits only at its own slots. A None attribute is not
      looked for. */
  ghost predicate Unshared(layout: seq<Slot>, attrs: Attrs, call: Call) {
    forall j, s: Slot :: 0 <= j < |layout| && layout[j] != s && LookedFor(s, attrs) ==>
      !Alias(ArgOf(layout[j], attrs, call), ArgOf(s, attrs, call))
  }

  predicate LookedFor(s: Slot, attrs: Attrs) {
    match s
    case Fixed(_) => false
    case Plan(a) => !attrs.Get(a).NoneObj?
    case _ => true
  }

  /** The per-layer tensors are passed once each. */
  ghost predicate OnceEach(layout: seq<Slot>) {
    forall i, j :: 0 <= i < j < |layout| && !layout[i].Fixed? && !layout[i].Plan? ==> layout[i] != layout[j]
  }

  /** The template agrees with the layout and with the current plan attributes. */
  ghost predicate Faithful(t: Template, layout: seq<Slot>, attrs: Attrs)
    requires t.Recorded?
  {
    && |t.args| == |layout| && Fits(t)
    && layout[t.iq] == Query && layout[t.ik] == KeyCache && layout[t.iv] == ValueCache && layout[t.io] == Out
    && (forall j :: 0 <= j < |layout| && layout[j].Fixed? ==> t.args[j] == layout[j].obj)
    && (forall j :: 0 <= j < |layout| && layout[j].Plan? ==> t.args[j] == attrs.Get(layout[j].attr))
    && (forall p :: p in t.slots <==> p.0 < |layout| && layout[p.0] == Plan(p.1))
  }

  lemma FoundIsSlot(layout: seq<Slot>, attrs: Attrs, call: Call, s: Slot)
    requires Unshared(layout, attrs, call) && LookedFor(s, attrs)
    ensures var i := Find(FullArgs(layout, attrs, call), ArgOf(s, attrs, call), 0); i >= 0 ==> layout[i] == s
  {
  }

  lemma EveryAttr(x: Attr)
    ensures x in ATTRS[0..]
  {
    assert ATTRS[0..] == ATTRS;
    match x
    case PlanInfo => assert ATTRS[0] == x;
    case QoIndptr => assert ATTRS[1] == x;
    case KvIndptr => assert ATTRS[2] == x;
    case KvIndices => assert ATTRS[3] == x;
    case LastPageLen => assert ATTRS[4] == x;
  }

  lemma {:induction false} RecordSlots(a: seq<Obj>, attrs: Attrs, call: Call)
    ensures Record(a, attrs, call).Recorded? ==> PlanSlots(a, attrs, 0) == AllFound(Record(a, attrs, call).slots)
  {
    hide Find, PlanSlots;
  }

  lemma {:induction false} SlotsRecorded(layout: seq<Slot>, attrs: Attrs, call: Call, p: (nat, Attr))
    requires Unshared(layout, attrs, call) && Complete(layout, attrs)
    ensures var t := Record(FullArgs(layout, attrs, call), attrs, call);
      t.Recorded? && (p in t.slots <==> p.0 < |layout| && layout[p.0] == Plan(p.1))
  {
    hide Record, Find, PlanSlots;
    RecordsExactly(layout, attrs, call);
    RecordSlots(FullArgs(layout, attrs, call), attrs, call);
    EveryAttr(p.1);
    if p.0 < |layout| && layout[p.0] != Plan(p.1) {
      assert !Alias(ArgOf(layout[p.0], attrs, call), ArgOf(Plan(p.1), attrs, call));
    }
  }

  lemma FoundIff(layout: seq<Slot>, attrs: Attrs, call: Call, s: Slot)
    requires Unshared(layout, attrs, call) && LookedFor(s, attrs)
    ensures Find(FullArgs(layout, attrs, call), ArgOf(s, attrs, call), 0) >= 0 <==> s in layout
    ensures ArgOf(s, attrs, call) in FullArgs(layout, attrs, call) <==> s in layout
  {
    var a := FullArgs(layout, attrs, call);
    FoundIsSlot(layout, attrs, call, s);
    if s in layout {
      var j :| 0 <= j < |layout| && layout[j] == s;
      assert a[j] == ArgOf(s, attrs, call);
    }
    if ArgOf(s, attrs, call) in a {
      var j :| 0 <= j < |a| && a[j] == ArgOf(s, attrs, call);
      assert layout[j] == s;
    }
  }

  /** The kernel is passed all four tensors and every attribute a plan replaces, none of them None. */
  ghost predicate Complete(layout: seq<Slot>, attrs: Attrs) {
    && Query in layout && KeyCache in layout && ValueCache in layout && Out in layout
    && forall x: Attr :: !attrs.Get(x).NoneObj? && Plan(x) in layout
  }

  /** The first call is recorded exactly when the kernel is passed all four tensors and every attribute a
      plan replaces; otherwise every call stays on the full path. */
  lemma {:induction false} RecordsExactly(layout: seq<Slot>, attrs: Attrs, call: Call)
    requires Unshared(layout, attrs, call)
    ensures Record(FullArgs(layout, attrs, call), attrs, call).Recorded? <==> Complete(layout, attrs)
  {
    hide Unshared, Find;
    FoundIff(layout, attrs, call, Query);
    FoundIff(layout, attrs, call, KeyCache);
    FoundIff(layout, attrs, call, ValueCache);
    FoundIff(layout, attrs, call, Out);
    forall x: Attr
      ensures x in ATTRS[0..]
      ensures !attrs.Get(x).NoneObj? ==> (attrs.Get(x) in FullArgs(layout, attrs, call) <==> Plan(x) in layout)
    {
      EveryAttr(x);
      if !attrs.Get(x).NoneObj? {
        FoundIff(layout, attrs, call, Plan(x));
      }
    }
  }

  lemma {:induction false} RecordFaithful(layout: seq<Slot>, attrs: Attrs, call: Call)
    requires Unshared(layout, attrs, call) && Complete(layout, attrs)
    ensures var t := Record(FullArgs(layout, attrs, call), attrs, call); t.Recorded? && Faithful(t, layout, attrs)
  {
    hide Unshared, PlanSlots, Alias, Complete;
    RecordsExactly(layout, attrs, call);
    FoundIsSlot(layout, attrs, call, Query);
    FoundIsSlot(layout, attrs, call, KeyCache);
    FoundIsSlot(layout, attrs, call, ValueCache);
    FoundIsSlot(layout, attrs, call, Out);
    forall p: (nat, Attr)
      ensures p in Record(FullArgs(layout, attrs, call), attrs, call).slots
              <==> p.0 < |layout| && layout[p.0] == Plan(p.1)
    {
      SlotsRecorded(layout, attrs, call, p);
    }
  }

  lemma {:induction false} RefreshedAt(args: seq<Obj>, slots: seq<(nat, Attr)>, attrs: Attrs, layout: seq<Slot>, j: nat)
    requires |args| == |layout| && j < |args|
    requires forall p :: p in slots ==> p.0 < |args| && layout[p.0] == Plan(p.1)
    ensures (exists p :: p in slots && p.0 == j) ==>
      layout[j].Plan? && Refresh(args, slots, attrs)[j] == attrs.Get(layout[j].attr)
    ensures !(exists p :: p in slots && p.0 == j) ==> Refresh(args, slots, attrs)[j] == args[j]
    decreases |slots|
  {
    if slots != [] {
      assert slots[0] in slots && forall p :: p in slots[1..] ==> p in slots;
      RefreshedAt(args[slots[0].0 := attrs.Get(slots[0].1)], slots[1..], attrs, layout, j);
      if p :| p in slots && p.0 == j {
        assert p == slots[0] || p in slots[1..];
      }
    }
  }

  /** A refresh makes the template faithful to the new plan. */
  lemma {:induction false} RefreshFaithful(t: Template, layout: seq<Slot>, attrs: Attrs, next: Attrs)
    requires t.Recorded? && Faithful(t, layout, attrs)
    ensures Faithful(t.(args := Refresh(t.args, t.slots, next)), layout, next)
  {
    var r := Refresh(t.args, t.slots, next);
    forall j | 0 <= j < |layout|
      ensures layout[j].Fixed? ==> r[j] == layout[j].obj
      ensures layout[j].Plan? ==> r[j] == next.Get(layout[j].attr)
    {
      RefreshedAt(t.args, t.slots, next, layout, j);
      if layout[j].Plan? {
        assert (j, layout[j].attr) in t.slots;
      }
    }
  }

  /** With the four tensors passed once each, replay is the full call. */
  lemma ReplayIsFull(t: Template, layout: seq<Slot>, attrs: Attrs, call: Call)
    requires t.Recorded? && Faithful(t, layout, attrs) && OnceEach(layout)
    ensures Replay(t, call) == FullArgs(layout, attrs, call)
  {
    var r, a := Replay(t, call), FullArgs(layout, attrs, call);
    forall j | 0 <= j < |layout| ensures r[j] == a[j] {
      match layout[j]
      case Query => assert j == t.iq;
      case KeyCache => assert j == t.ik;
      case ValueCache => assert j == t.iv;
      case Out => assert j == t.io;
      case Plan(_) =>
      case Fixed(_) =>
    }
  }

  function OtherThan(x: Obj): (y: Obj)
    ensures y != x
  {
    if x == Other(0) then Other(1) else Other(0)
  }

  /** A call whose tensors all differ from the recorded ones. */
  function Changed(call: Call): Call {
    Call(OtherThan(call.q), OtherThan(call.k), OtherThan(call.v), OtherThan(call.out))
  }

  ghost predicate AlwaysFull(t: Template, layout: seq<Slot>)
    requires t.Recorded? && Fits(t)
  {
    forall next: Attrs, later: Call :: ReplaysFull(t, layout, next, later)
  }

  ghost predicate ReplaysFull(t: Template, layout: seq<Slot>, next: Attrs, later: Call)
    requires t.Recorded? && Fits(t)
  {
    Replay(t.(args := Refresh(t.args, t.slots, next)), later) == FullArgs(layout, next, later)
  }

  /** A position the replay does not swap keeps the recorded tensor. */
  lemma {:induction false} StaleSlot(t: Template, layout: seq<Slot>, attrs: Attrs, call: Call, x: nat)
    requires t.Recorded? && Faithful(t, layout, attrs) && t.args == FullArgs(layout, attrs, call)
    requires x < |layout| && !layout[x].Fixed? && !layout[x].Plan?
    requires x != t.iq && x != t.ik && x != t.iv && x != t.io
    ensures !ReplaysFull(t, layout, attrs, Changed(call))
  {
    var u := t.(args := Refresh(t.args, t.slots, attrs));
    RefreshedAt(t.args, t.slots, attrs, layout, x);
    assert Replay(u, Changed(call))[x] == t.args[x];
    assert FullArgs(layout, attrs, Changed(call))[x] != t.args[x];
  }

  /** Replay equals the full call for every later plan and layer exactly when the wrapper passes each
      of the four tensors once: a second occurrence would keep the recorded layer's tensor. */
  lemma {:induction false} ReplayExact(layout: seq<Slot>, attrs: Attrs, call: Call)
    requires Unshared(layout, attrs, call) && Complete(layout, attrs)
    ensures var t := Record(FullArgs(layout, attrs, call), attrs, call);
      t.Recorded? && (OnceEach(layout) <==> AlwaysFull(t, layout))
  {
    hide Record, Unshared, ReplaysFull;
    var t := Record(FullArgs(layout, attrs, call), attrs, call);
    RecordFaithful(layout, attrs, call);
    if OnceEach(layout) {
      forall next: Attrs, later: Call ensures ReplaysFull(t, layout, next, later) {
        RefreshReplays(t, layout, attrs, next, later);
      }
    } else {
      var i, j :| 0 <= i < j < |layout| && !layout[i].Fixed? && !layout[i].Plan? && layout[i] == layout[j];
      var x := if i == t.iq || i == t.ik || i == t.iv || i == t.io then j else i;
      StaleSlot(t, layout, attrs, call, x);
    }
  }

  lemma RefreshReplays(t: Template, layout: seq<Slot>, attrs: Attrs, next: Attrs, later: Call)
    requires t.Recorded? && Faithful(t, layout, attrs) && OnceEach(layout)
    ensures ReplaysFull(t, layout, next, later)
  {
    RefreshFaithful(t, layout, attrs, next);
    ReplayIsFull(t.(args := Refresh(t.args, t.slots, next)), layout, next, later);
  }

  // ---- the layout the wrapper uses ----

  /** The four tensors and every plan attribute once, then the tail that repeats both indptrs. */
  const USUAL: seq<Slot> := [Query, KeyCache, ValueCache, Plan(PlanInfo), Plan(QoIndptr), Plan(KvIndptr),
                             Plan(KvIndices), Plan(LastPageLen), Out, Plan(QoIndptr), Plan(KvIndptr)]

  function Objects(attrs: Attrs, call: Call): seq<Obj> {
    [call.q, call.k, call.v, call.out,
     attrs.planInfo, attrs.qoIndptr, attrs.kvIndptr, attrs.kvIndices, attrs.lastPageLen]
  }

  function Place(s: Slot): (n: nat)
    requires !s.Fixed?
    ensures n < 9
  {
    match s
    case Query => 0
    case KeyCache => 1
    case ValueCache => 2
    case Out => 3
    case Plan(PlanInfo) => 4
    case Plan(QoIndptr) => 5
    case Plan(KvIndptr) => 6
    case Plan(KvIndices) => 7
    case Plan(LastPageLen) => 8
  }

  lemma PlaceIs(s: Slot, t: Slot, attrs: Attrs, call: Call)
    requires !s.Fixed? && !t.Fixed?
    ensures |Objects(attrs, call)| == 9 && ArgOf(s, attrs, call) == Objects(attrs, call)[Place(s)]
    ensures Place(s) == Place(t) ==> s == t
  {
  }

  ghost predicate Separate(objs: seq<Obj>) {
    forall i, j :: 0 <= i < |objs| && 0 <= j < |objs| && i != j ==> !Alias(objs[i], objs[j])
  }

  /** With nine distinct objects and none of them None, the usual layout is recorded although two attributes
      occur twice in it, and is replayed exactly for ever after. */
  lemma {:induction false} UsualLayout(attrs: Attrs, call: Call)
    requires Separate(Objects(attrs, call)) && forall x: Attr :: !attrs.Get(x).NoneObj?
    ensures Unshared(USUAL, attrs, call) && OnceEach(USUAL)
    ensures var t := Record(FullArgs(USUAL, attrs, call), attrs, call); t.Recorded? && AlwaysFull(t, USUAL)
  {
    hide Record, AlwaysFull, Separate, Objects, Unshared, OnceEach, FullArgs;
    UsualSlots();
    UsualOnce();
    assert Complete(USUAL, attrs);
    DistinctUnshared(USUAL, attrs, call);
    ReplayExact(USUAL, attrs, call);
  }

  /** Distinct objects are looked up without confusion, in any layout of nothing else. */
  lemma {:induction false} DistinctUnshared(layout: seq<Slot>, attrs: Attrs, call: Call)
    requires Separate(Objects(attrs, call)) && forall j :: 0 <= j < |layout| ==> !layout[j].Fixed?
    ensures Unshared(layout, attrs, call)
  {
    hide Alias, Separate, Objects, ArgOf;
    forall j, s: Slot | 0 <= j < |layout| && !s.Fixed? && layout[j] != s
      ensures !Alias(ArgOf(layout[j], attrs, call), ArgOf(s, attrs, call))
    {
      DistinctSlots(layout[j], s, attrs, call);
    }
  }

  lemma {:induction false} DistinctSlots(s: Slot, t: Slot, attrs: Attrs, call: Call)
    requires Separate(Objects(attrs, call)) && !s.Fixed? && !t.Fixed? && s != t
    ensures !Alias(ArgOf(s, attrs, call), ArgOf(t, attrs, call))
  {
    hide Objects, ArgOf, Place, Alias;
    PlaceIs(s, t, attrs, call);
    PlaceIs(t, t, attrs, call);
  }

  lemma UsualOnce()
    ensures OnceEach(USUAL)
  {
    forall i, j | 0 <= i < j < |USUAL| && !USUAL[i].Fixed? && !USUAL[i].Plan? ensures USUAL[i] != USUAL[j] {
      if j != 1 && j != 2 && j != 8 {
        assert USUAL[j].Plan?;
      }
    }
  }

  lemma {:induction false} UsualSlots()
    ensures forall j :: 0 <= j < |USUAL| ==> !USUAL[j].Fixed?
    ensures Query in USUAL && KeyCache in USUAL && ValueCache in USUAL && Out in USUAL
    ensures forall x: Attr :: Plan(x) in USUAL
  {
    assert USUAL[0] == Query && USUAL[1] == KeyCache && USUAL[2] == ValueCache && USUAL[8] == Out;
    forall x: Attr ensures Plan(x) in USUAL {
      match x
      case PlanInfo => assert USUAL[3] == Plan(x);
      case QoIndptr => assert USUAL[4] == Plan(x);
      case KvIndptr => assert USUAL[5] == Plan(x);
      case KvIndices => assert USUAL[6] == Plan(x);
      case LastPageLen => assert USUAL[7] == Plan(x);
    }
  }
}
