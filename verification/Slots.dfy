/**
  How a scalar is saved by the code that is really emitted: it is stored in a stack slot of its
  type, the slot is saved, and the slot is given back for the next scalar.
 */
module Slots {
  import opened Records
  import opened Bits
  import opened IR
  import opened Pointers
  import opened Emission
  import opened SaveRestore

  // ----- the slots of a function -----

  type Slot = nat

  /** `ACRIiLAllocaManager`; a scalar type is its width. */
  class ACRIiLAllocaManager {
    var allocas: map<nat, set<Slot>>
    var unusedAllocas: map<nat, set<Slot>>
    var next: Slot

    function Allocas(type_: nat): set<Slot>
      reads this
    {
      if type_ in allocas then allocas[type_] else {}
    }

    function Unused(type_: nat): set<Slot>
      reads this
    {
      if type_ in unusedAllocas then unusedAllocas[type_] else {}
    }

    /** Every slot has one type, and unused slots are slots. */
    ghost predicate Valid()
      reads this
    {
      && (forall t :: Unused(t) <= Allocas(t))
      && (forall t, s :: s in Allocas(t) ==> s < next)
      && forall t, u, s :: s in Allocas(t) && s in Allocas(u) ==> t == u
    }

    /** A slot that has been handed out and not given back. */
    ghost predicate InUse(slot: Slot)
      reads this
    {
      exists t :: slot in Allocas(t) && slot !in Unused(t)
    }

    constructor ()
      ensures Valid() && forall s :: !InUse(s)
    {
      allocas, unusedAllocas, next := map[], map[], 0;
    }

    /** A slot of the type that nobody uses: an old one when there is one. */
    method GetAlloca(type_: nat) returns (ai: Slot)
      requires Valid()
      modifies this
      ensures Valid() && ai in Allocas(type_) && !old(InUse(ai))
      ensures forall s :: InUse(s) <==> old(InUse(s)) || s == ai
      ensures old(Unused(type_)) != {} ==> allocas == old(allocas) && ai in old(Unused(type_))
    {
      if Unused(type_) != {} {
        ai :| ai in Unused(type_);
        unusedAllocas := unusedAllocas[type_ := Unused(type_) - {ai}];
        assert forall t :: t != type_ ==> Unused(t) == old(Unused(t));
        assert ai in Allocas(type_) && ai !in Unused(type_);
        forall s ensures InUse(s) <==> old(InUse(s)) || s == ai {
          if old(InUse(s)) {
            var t :| s in Allocas(t) && s !in old(Unused(t));
            assert s in Allocas(t) && s !in Unused(t);
          }
        }
      } else {
        ai := next;
        next := next + 1;
        allocas := allocas[type_ := Allocas(type_) + {ai}];
        assert forall t :: t != type_ ==> Allocas(t) == old(Allocas(t));
        assert forall t :: Unused(t) == old(Unused(t));
        assert ai in Allocas(type_) && ai !in Unused(type_);
        forall s ensures InUse(s) <==> old(InUse(s)) || s == ai {
          if old(InUse(s)) {
            var t :| s in old(Allocas(t)) && s !in Unused(t);
            assert s in Allocas(t) && s !in Unused(t);
          }
        }
      }
    }

    /** A slot of the type becomes free; others are ignored. */
    method ReleaseAlloca(ai: Slot, type_: nat)
      requires Valid()
      modifies this`unusedAllocas
      ensures Valid()
      ensures ai in Allocas(type_) ==> !InUse(ai) && forall s :: s != ai ==> (InUse(s) <==> old(InUse(s)))
      ensures ai !in Allocas(type_) ==> unusedAllocas == old(unusedAllocas)
    {
      if ai in Allocas(type_) {
        unusedAllocas := unusedAllocas[type_ := Unused(type_) + {ai}];
        assert forall t :: t != type_ ==> Unused(t) == old(Unused(t));
        forall s | s != ai ensures InUse(s) <==> old(InUse(s)) {
          forall t ensures s in Unused(t) <==> s in old(Unused(t)) { }
        }
      }
    }
  }

  // ----- the code that uses them -----

  /** A scalar and the slot it passes through. */
  datatype Slotted = Slotted(v: Value, width: nat, slot: Slot)

  type Memory = map<Slot, BitString>

  /** The slots hold values of their types. */
  predicate SlotsTyped(m: Memory, scalars: seq<Slotted>) {
    forall i :: 0 <= i < |scalars| ==> scalars[i].slot in m && |m[scalars[i].slot]| == scalars[i].width
  }

  function Stored(env: Env, s: Slotted, m: Memory): Memory {
    m[s.slot := IntBits(IntOf(Get(env, s.v)), s.width)]
  }

  /** Store into the slot, then save the slot. */
  function SaveThrough(sem: Sem, env: Env, scalars: seq<Slotted>, m: Memory): seq<File> {
    if scalars == [] then []
    else
      var s := scalars[0];
      var m' := Stored(env, s, m);
      [sem.codec.pointer(s.width, 1, m'[s.slot])] + SaveThrough(sem, env, scalars[1..], m')
  }

  /** Restore the slot, then load from it; the run stops when a file cannot be read. */
  function LoadThrough(sem: Sem, l: Label, scalars: seq<Slotted>, files: seq<File>, renv: Env, m: Memory): Option<Env>
    requires |files| == |scalars|
  {
    if scalars == [] then Some(renv)
    else
      var s := scalars[0];
      var bits := sem.codec.readPointer(s.width, 1, files[0]);
      if bits.None? || s.slot !in m || |bits.value| > |m[s.slot]| then None
      else
        var m' := m[s.slot := bits.value + m[s.slot][|bits.value|..]];
        LoadThrough(sem, l, scalars[1..], files[1..], renv[Restored(s.v, l) := Int(BitsInt(m'[s.slot]))], m')
  }

  /** Whichever slots are shared, each scalar's own bits are saved. */
  lemma {:induction false} SlotsDoNotMixSaves(sem: Sem, ps: Pointers, ty: Types, env: Env, w: World, before: Order,
                                              scalars: seq<Slotted>, m: Memory, i: nat)
    requires i < |scalars| && scalars[i].v !in ps.info && scalars[i].width == ty.Width(scalars[i].v)
    ensures |SaveThrough(sem, env, scalars, m)| == |scalars|
    ensures SaveThrough(sem, env, scalars, m)[i] == FileOf(sem, ps, ty, env, w, before, scalars[i].v)
    decreases |scalars|
  {
    SaveThroughLength(sem, env, scalars, m);
    if i > 0 {
      SlotsDoNotMixSaves(sem, ps, ty, env, w, before, scalars[1..], Stored(env, scalars[0], m), i - 1);
    }
  }

  lemma {:induction false} SaveThroughLength(sem: Sem, env: Env, scalars: seq<Slotted>, m: Memory)
    ensures |SaveThrough(sem, env, scalars, m)| == |scalars|
    decreases |scalars|
  {
    if scalars != [] { SaveThroughLength(sem, env, scalars[1..], Stored(env, scalars[0], m)); }
  }

  /** What has to be known of the scalars: they fit their widths and their files can be read back. */
  ghost predicate Fit(sem: Sem, env: Env, s: Slotted) {
    && Get(env, s.v).Int? && Get(env, s.v).i < Pow2(s.width)
    && Reads(sem.codec, s.width, 1, IntBits(Get(env, s.v).i, s.width))
  }

  predicate DistinctValues(scalars: seq<Slotted>) {
    forall i, j :: 0 <= i < j < |scalars| ==> scalars[i].v != scalars[j].v
  }

  /** And each scalar's own value comes back. */
  lemma {:induction false} SlotsDoNotMixLoads(sem: Sem, l: Label, env: Env, scalars: seq<Slotted>, m: Memory, renv: Env, m': Memory)
    requires DistinctValues(scalars) && SlotsTyped(m', scalars)
    requires forall i :: 0 <= i < |scalars| ==> Fit(sem, env, scalars[i])
    ensures |SaveThrough(sem, env, scalars, m)| == |scalars|
    ensures var r := LoadThrough(sem, l, scalars, SaveThrough(sem, env, scalars, m), renv, m');
            && r.Some?
            && (forall i :: 0 <= i < |scalars| ==> Get(r.value, Restored(scalars[i].v, l)) == Get(env, scalars[i].v))
            && (forall x :: (forall i :: 0 <= i < |scalars| ==> x != Restored(scalars[i].v, l)) ==> Get(r.value, x) == Get(renv, x))
    decreases |scalars|
  {
    SaveThroughLength(sem, env, scalars, m);
    if scalars != [] {
      var s, rest := scalars[0], scalars[1..];
      var files := SaveThrough(sem, env, scalars, m);
      var bits := IntBits(Get(env, s.v).i, s.width);
      IntBitsRoundTrip(Get(env, s.v).i, s.width);
      assert Fit(sem, env, s) && files[1..] == SaveThrough(sem, env, rest, Stored(env, s, m));
      assert bits + m'[s.slot][|bits|..] == bits;
      var renv1 := renv[Restored(s.v, l) := Get(env, s.v)];
      SlotsDoNotMixLoads(sem, l, env, rest, Stored(env, s, m), renv1, m'[s.slot := bits]);
      var r := LoadThrough(sem, l, rest, files[1..], renv1, m'[s.slot := bits]);
      assert Get(r.value, Restored(s.v, l)) == Get(renv1, Restored(s.v, l));
      forall i | 0 <= i < |scalars| ensures Get(r.value, Restored(scalars[i].v, l)) == Get(env, scalars[i].v) {
        if i > 0 { assert rest[i - 1] == scalars[i]; }
      }
      forall x | forall i :: 0 <= i < |scalars| ==> x != Restored(scalars[i].v, l) ensures Get(r.value, x) == Get(renv, x) {
        assert x != Restored(scalars[0].v, l);
        assert forall i :: 0 <= i < |rest| ==> x != Restored(rest[i].v, l);
        assert Get(r.value, x) == Get(renv1, x);
      }
    }
  }
}
