/** Registering the mirrored Marlin kernel: an ordered insertion into the shared list of candidates, undone
    when the library does not load, and what it does to the choice of a kernel for a layer. */
module KernelRegistry {
  import opened Wrappers

  datatype Kernel = Famp | Marlin | AllSpark | Other(id: nat)

  /** What the choice depends on for one layer: capability, the disabled list and can_implement. */
  datatype Platform = Platform(cc: int, minCap: Kernel -> int, disabled: Kernel -> bool, can: Kernel -> bool) {
    predicate Usable(k: Kernel) {
      !disabled(k) && minCap(k) <= cc && can(k)
    }
  }

  /** The first candidate, of those the backend allows, that is usable. */
  function First(kernels: seq<Kernel>, allowed: set<Kernel>, p: Platform): Option<Kernel> {
    if kernels == [] then None
    else if kernels[0] in allowed && p.Usable(kernels[0]) then Some(kernels[0])
    else First(kernels[1..], allowed, p)
  }

  /** `choose_mp_linear_kernel`; None for no backend, and a backend without any of the kernels is ignored. */
  function Choose(kernels: seq<Kernel>, backend: Option<set<Kernel>>, p: Platform): Option<Kernel> {
    var all := set k | k in kernels;
    if backend.Some? && backend.value * all != {} then First(kernels, backend.value, p)
    else First(kernels, all, p)
  }

  /** k may serve the layer: the backend, if it names any of the kernels, names this one, nobody disabled it,
      the device is capable of it, and it can implement the layer. */
  ghost predicate MayServe(kernels: seq<Kernel>, backend: Option<set<Kernel>>, p: Platform, k: Kernel) {
    && (backend.Some? && (exists k' :: k' in kernels && k' in backend.value) ==> k in backend.value)
    && !p.disabled(k) && p.minCap(k) <= p.cc && p.can(k)
  }

  /** The choice is the first kernel of the list that may serve the layer. */
  lemma {:induction false} ChosenIs(kernels: seq<Kernel>, backend: Option<set<Kernel>>, p: Platform)
    ensures var chosen := Choose(kernels, backend, p);
      && (chosen.None? <==> forall i :: 0 <= i < |kernels| ==> !MayServe(kernels, backend, p, kernels[i]))
      && (chosen.Some? ==> exists i ::
            && 0 <= i < |kernels| && kernels[i] == chosen.value && MayServe(kernels, backend, p, kernels[i])
            && forall j :: 0 <= j < i ==> !MayServe(kernels, backend, p, kernels[j]))
  {
    var all := set k | k in kernels;
    var named := backend.Some? && backend.value * all != {};
    assert named <==> backend.Some? && exists k :: k in kernels && k in backend.value by {
      assert named ==> exists k :: k in backend.value * all;
      assert backend.Some? ==> forall k :: k in kernels && k in backend.value ==> k in backend.value * all;
    }
    var allowed := if named then backend.value else all;
    FirstIs(kernels, allowed, p);
    assert forall i :: 0 <= i < |kernels| ==>
      (MayServe(kernels, backend, p, kernels[i]) <==> kernels[i] in allowed && p.Usable(kernels[i]));
  }

  lemma {:induction false} FirstIs(kernels: seq<Kernel>, allowed: set<Kernel>, p: Platform)
    ensures var k := First(kernels, allowed, p);
      && (k.None? <==> forall i :: 0 <= i < |kernels| ==> !(kernels[i] in allowed && p.Usable(kernels[i])))
      && (k.Some? ==> exists i ::
            && 0 <= i < |kernels| && kernels[i] == k.value && kernels[i] in allowed && p.Usable(kernels[i])
            && forall j :: 0 <= j < i ==> !(kernels[j] in allowed && p.Usable(kernels[j])))
  {
    if kernels != [] && !(kernels[0] in allowed && p.Usable(kernels[0])) {
      var rest := kernels[1..];
      FirstIs(rest, allowed, p);
      if First(rest, allowed, p).Some? {
        var i :| 0 <= i < |rest| && rest[i] == First(rest, allowed, p).value && rest[i] in allowed && p.Usable(rest[i])
          && forall j :: 0 <= j < i ==> !(rest[j] in allowed && p.Usable(rest[j]));
        assert kernels[i + 1] == rest[i];
        forall j | 0 <= j < i + 1 ensures !(kernels[j] in allowed && p.Usable(kernels[j])) {
          if j > 0 {
            assert kernels[j] == rest[j - 1];
          }
        }
      } else {
        forall i | 0 <= i < |kernels| ensures !(kernels[i] in allowed && p.Usable(kernels[i])) {
          if i > 0 {
            assert kernels[i] == rest[i - 1];
          }
        }
      }
    }
  }

  /** Where the earliest competitor stands, the end of the list if there is none. */
  function CompeteAt(kernels: seq<Kernel>, compete: set<Kernel>, cc: int, minCap: Kernel -> int): (i: nat)
    ensures i <= |kernels|
    ensures forall j :: 0 <= j < i ==> !(kernels[j] in compete && minCap(kernels[j]) <= cc)
    ensures i < |kernels| ==> kernels[i] in compete && minCap(kernels[i]) <= cc
  {
    if kernels == [] || (kernels[0] in compete && minCap(kernels[0]) <= cc) then 0
    else 1 + CompeteAt(kernels[1..], compete, cc, minCap)
  }

  function Inserted(kernels: seq<Kernel>, i: nat): seq<Kernel>
    requires i <= |kernels|
  {
    kernels[..i] + [Famp] + kernels[i..]
  }

  class Registry {
    var kernels: seq<Kernel>
    var marlinBackend: set<Kernel>

    /** `register_fampmarlin` from the disabled check on. A second call changes nothing, and a library
        that fails to load leaves the list as it was. */
    method Register(p: Platform, allSpark: bool, hasMap: bool, loads: bool)
      modifies this
      ensures p.disabled(Famp) || Famp in old(kernels) ==>
        kernels == old(kernels) && marlinBackend == old(marlinBackend)
      ensures !p.disabled(Famp) && Famp !in old(kernels) && loads ==>
        var compete := if allSpark then {Marlin, AllSpark} else {Marlin};
        && kernels == Inserted(old(kernels), CompeteAt(old(kernels), compete, p.cc, p.minCap))
        && marlinBackend == old(marlinBackend) + if hasMap then {Famp} else {}
      ensures !p.disabled(Famp) && Famp !in old(kernels) && !loads ==>
        && kernels == old(kernels)
        && marlinBackend == old(marlinBackend) - if hasMap then {Famp} else {}
    {
      if p.disabled(Famp) || Famp in kernels {
        return;
      }
      var compete := {Marlin};
      if allSpark {
        compete := compete + {AllSpark};
      }
      assert compete == if allSpark then {Marlin, AllSpark} else {Marlin};
      var i := CompeteAt(kernels, compete, p.cc, p.minCap);
      kernels := Inserted(kernels, i);
      if hasMap {
        marlinBackend := marlinBackend + {Famp};
      }
      if !loads {
        RemoveUndoes(old(kernels), i);
        kernels := Remove(kernels);
        if hasMap {
          marlinBackend := marlinBackend - {Famp};
        }
      }
    }
  }

  /** list.remove(Famp) */
  function Remove(kernels: seq<Kernel>): seq<Kernel>
    requires Famp in kernels
  {
    if kernels[0] == Famp then kernels[1..] else [kernels[0]] + Remove(kernels[1..])
  }

  lemma {:induction false} RemoveUndoes(kernels: seq<Kernel>, i: nat)
    requires i <= |kernels| && Famp !in kernels
    ensures Famp in Inserted(kernels, i) && Remove(Inserted(kernels, i)) == kernels
  {
    var s := Inserted(kernels, i);
    assert s[i] == Famp;
    if i == 0 {
      assert s[1..] == kernels;
    } else {
      RemoveUndoes(kernels[1..], i - 1);
      assert s[0] == kernels[0] && s[1..] == Inserted(kernels[1..], i - 1);
      assert kernels == [kernels[0]] + kernels[1..];
    }
  }

  /** Only what stood behind the insertion can lose to the inserted kernel. */
  lemma {:induction false} InsertedFirst(kernels: seq<Kernel>, i: nat, allowed: set<Kernel>, p: Platform)
    requires i <= |kernels| && Famp !in kernels
    ensures First(Inserted(kernels, i), allowed + {Famp}, p)
         == if First(kernels[..i], allowed, p).Some? then First(kernels[..i], allowed, p)
            else if p.Usable(Famp) then Some(Famp) else First(kernels, allowed, p)
  {
    var s := Inserted(kernels, i);
    if i == 0 {
      assert s[0] == Famp && s[1..] == kernels;
      SameAllowed(kernels, allowed, p);
    } else {
      assert kernels[0] in kernels;
      assert s[0] == kernels[0] && s[1..] == Inserted(kernels[1..], i - 1);
      assert kernels[..i][1..] == kernels[1..][..i - 1];
      InsertedFirst(kernels[1..], i - 1, allowed, p);
    }
  }

  lemma {:induction false} SameAllowed(kernels: seq<Kernel>, allowed: set<Kernel>, p: Platform)
    requires Famp !in kernels
    ensures First(kernels, allowed + {Famp}, p) == First(kernels, allowed, p)
  {
    if kernels != [] {
      assert kernels[0] in kernels;
      SameAllowed(kernels[1..], allowed, p);
    }
  }

  lemma {:induction false} FirstFound(kernels: seq<Kernel>, i: nat, allowed: set<Kernel>, p: Platform)
    requires i <= |kernels|
    ensures First(kernels[..i], allowed, p).Some? ==> First(kernels, allowed, p) == First(kernels[..i], allowed, p)
    ensures First(kernels[..i], allowed, p).Some? ==> First(kernels[..i], allowed, p).value in kernels[..i]
  {
    if i > 0 {
      assert kernels[..i][1..] == kernels[1..][..i - 1] && kernels[..i][0] == kernels[0];
      FirstFound(kernels[1..], i - 1, allowed, p);
    }
  }

  /** After registration a layer that Marlin served is served by its mirror, when the mirror is usable where
      Marlin is; every other layer keeps its kernel or, where the mirror is usable too, gets the mirror.
      The same holds under the marlin backend, which the mirror joins. */
  lemma {:induction false} MirrorTakesMarlin(kernels: seq<Kernel>, compete: set<Kernel>, backend: Option<set<Kernel>>,
                                             p: Platform)
    requires Famp !in kernels && Marlin in compete
    requires p.Usable(Marlin) ==> p.Usable(Famp)
    requires backend.Some? ==> Marlin in backend.value && Marlin in kernels
    ensures
      var joined := if backend.Some? then Some(backend.value + {Famp}) else None;
      var before := Choose(kernels, backend, p);
      var after := Choose(Inserted(kernels, CompeteAt(kernels, compete, p.cc, p.minCap)), joined, p);
      && (before == Some(Marlin) ==> after == Some(Famp))
      && (after == before || (after == Some(Famp) && p.Usable(Famp)))
  {
    hide CompeteAt;
    var i := CompeteAt(kernels, compete, p.cc, p.minCap);
    var s := Inserted(kernels, i);
    var all := set k | k in kernels;
    assert s[i] == Famp;
    assert (set k | k in s) == all + {Famp};
    var allowed := if backend.Some? then backend.value else all;
    if backend.Some? {
      assert Marlin in backend.value * all;
      assert Famp in (backend.value + {Famp}) * (all + {Famp});
    }
    InsertedFirst(kernels, i, allowed, p);
    FirstFound(kernels, i, allowed, p);
    FirstIs(kernels, allowed, p);
  }
}
