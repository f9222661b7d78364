/**
  What is put into the checkpoint and restart block of a header: for each live value, after
  everything it needs, one save and the matching restore.
 */
module Emission {
  import opened Records
  import opened IR
  import opened Pointers

  /** Where a pointer comes from. */
  datatype Origin = Stack(elemBits: nat, count: nat) | Heap | Derived

  datatype Types = Types(width: map<Value, nat>, origin: map<Value, Origin>) {
    function Width(v: Value): nat { if v in width then width[v] else 0 }

    function OriginOf(v: Value): Origin { if v in origin then origin[v] else Derived }
  }

  /** The aliases of a pointer are pointers the analysis knows. */
  ghost predicate KnownAliases(ps: Pointers) {
    forall p, a :: p in ps.info && a in ps.info[p].aliasSet ==> a in ps.info
  }

  ghost predicate PointersOk(ps: Pointers) {
    ps.Acyclic() && ScalarSizes(ps) && KnownAliases(ps)
  }

  // ----- the order of the records -----

  type Order = seq<Value>

  function Members(order: Order): set<Value> {
    set v | v in order
  }

  function Append(order: Order, v: Value): Order {
    if v in order then order else order + [v]
  }

  /** The records once `v` has been dealt with: what it needs, then `v`, each if it is not there yet. */
  function Visit(ps: Pointers, order: Order, v: Value): Order
    requires ps.Acyclic() && ScalarSizes(ps)
    decreases ps.Measure(v), 1, 0
  {
    if v !in ps.info then Append(order, v)
    else
      var sizes := VisitSizes(ps, order, v);
      Append(VisitAliases(ps, sizes, v, ps.info[v].aliasSet), v)
  }

  function AppendOperand(order: Order, o: Operand): Order {
    if o.Use? then Append(order, o.v) else order
  }

  function VisitSizes(ps: Pointers, order: Order, p: Value): Order
    requires p in ps.info
  {
    AppendOperand(AppendOperand(order, ps.info[p].typeSizeInBits), ps.info[p].numElements)
  }

  function VisitAliases(ps: Pointers, order: Order, p: Value, aliases: seq<Value>): Order
    requires ps.Acyclic() && ScalarSizes(ps) && p in ps.info
    requires forall a :: a in aliases ==> a in ps.info[p].aliasSet
    decreases ps.Measure(p), 0, |aliases|
  {
    if aliases == [] then order
    else
      var first := if aliases[0] != p then Visit(ps, order, aliases[0]) else order;
      VisitAliases(ps, first, p, aliases[1..])
  }

  /** What has to be recorded before a value. */
  function Direct(ps: Pointers, v: Value): set<Value> {
    if v !in ps.info then {}
    else
      OperandUses(ps.info[v].typeSizeInBits) + OperandUses(ps.info[v].numElements) +
      set a | a in ps.info[v].aliasSet && a != v
  }

  /** Each value once, and after what it needs. */
  ghost predicate WellOrdered(ps: Pointers, order: Order)
    decreases |order|
  {
    order != [] ==>
      var before, v := Before(order), Latest(order);
      WellOrdered(ps, before) && v !in before && Direct(ps, v) <= Members(before)
  }

  function Before(order: Order): (r: Order)
    requires order != []
    ensures |r| == |order| - 1
  {
    order[..|order| - 1]
  }

  function Latest(order: Order): Value
    requires order != []
  {
    order[|order| - 1]
  }

  lemma BeforeAppend(order: Order, v: Value)
    ensures Before(order + [v]) == order && Latest(order + [v]) == v
  {
  }

  lemma AppendOrdered(ps: Pointers, order: Order, v: Value)
    requires WellOrdered(ps, order) && Direct(ps, v) <= Members(order)
    ensures WellOrdered(ps, Append(order, v)) && Members(Append(order, v)) == Members(order) + {v}
  {
    if v !in order { BeforeAppend(order, v); }
  }

  lemma AppendMembers(order: Order, v: Value)
    ensures Members(Append(order, v)) == Members(order) + {v}
  {
  }

  lemma SizesMembers(ps: Pointers, order: Order, p: Value)
    requires p in ps.info
    ensures Members(VisitSizes(ps, order, p)) ==
            Members(order) + OperandUses(ps.info[p].typeSizeInBits) + OperandUses(ps.info[p].numElements)
  {
    OperandMembers(order, ps.info[p].typeSizeInBits);
    OperandMembers(AppendOperand(order, ps.info[p].typeSizeInBits), ps.info[p].numElements);
  }

  lemma OperandMembers(order: Order, o: Operand)
    ensures Members(AppendOperand(order, o)) == Members(order) + OperandUses(o)
  {
    if o.Use? { AppendMembers(order, o.v); }
  }

  /** Dealing with a value records it and all it drags along. */
  lemma {:induction false} VisitMembers(ps: Pointers, order: Order, v: Value)
    requires ps.Acyclic() && ScalarSizes(ps)
    ensures Members(Visit(ps, order, v)) == Members(order) + Needs(ps, v)
    decreases ps.Measure(v), 1, 0
  {
    if v in ps.info {
      SizesMembers(ps, order, v);
      AliasesMembers(ps, VisitSizes(ps, order, v), v, ps.info[v].aliasSet);
      NeedsApart(ps, v);
      AppendMembers(VisitAliases(ps, VisitSizes(ps, order, v), v, ps.info[v].aliasSet), v);
    } else {
      AppendMembers(order, v);
    }
  }

  /** What is recorded before a pointer. */
  function NeedsOfPointer(ps: Pointers, p: Value): set<Value>
    requires ps.Acyclic() && p in ps.info
  {
    OperandUses(ps.info[p].typeSizeInBits) + OperandUses(ps.info[p].numElements) + OtherAliases(ps, p, ps.info[p].aliasSet)
  }

  lemma NeedsApart(ps: Pointers, p: Value)
    requires ps.Acyclic() && p in ps.info
    ensures Direct(ps, p) <= NeedsOfPointer(ps, p) && Needs(ps, p) == NeedsOfPointer(ps, p) + {p}
  {
    SelfAlias(ps, p, ps.info[p].aliasSet);
  }

  /** The aliases of a pointer other than itself, with what they drag along. */
  function OtherAliases(ps: Pointers, p: Value, aliases: seq<Value>): set<Value>
    requires ps.Acyclic() && p in ps.info
    requires forall a :: a in aliases ==> a in ps.info[p].aliasSet
  {
    if aliases == [] then {}
    else (if aliases[0] != p then Needs(ps, aliases[0]) else {}) + OtherAliases(ps, p, aliases[1..])
  }

  lemma {:induction false} SelfAlias(ps: Pointers, p: Value, aliases: seq<Value>)
    requires ps.Acyclic() && p in ps.info
    requires forall a :: a in aliases ==> a in ps.info[p].aliasSet
    ensures AliasUses(ps, p, aliases) + {p} == OtherAliases(ps, p, aliases) + {p}
    ensures forall a :: a in aliases && a != p ==> a in OtherAliases(ps, p, aliases)
    decreases |aliases|
  {
    if aliases != [] { SelfAlias(ps, p, aliases[1..]); }
  }

  lemma {:induction false} AliasesMembers(ps: Pointers, order: Order, p: Value, aliases: seq<Value>)
    requires ps.Acyclic() && ScalarSizes(ps) && p in ps.info
    requires forall a :: a in aliases ==> a in ps.info[p].aliasSet
    ensures Members(VisitAliases(ps, order, p, aliases)) == Members(order) + OtherAliases(ps, p, aliases)
    decreases ps.Measure(p), 0, |aliases|
  {
    if aliases != [] {
      if aliases[0] != p {
        VisitMembers(ps, order, aliases[0]);
        AliasesMembers(ps, Visit(ps, order, aliases[0]), p, aliases[1..]);
      } else {
        AliasesMembers(ps, order, p, aliases[1..]);
      }
    }
  }

  /** When the turn of a pointer comes, what it needs has been recorded. */
  lemma NeedsBefore(ps: Pointers, order: Order, p: Value)
    requires ps.Acyclic() && ScalarSizes(ps) && p in ps.info
    ensures Direct(ps, p) <= Members(VisitAliases(ps, VisitSizes(ps, order, p), p, ps.info[p].aliasSet))
  {
    SizesMembers(ps, order, p);
    AliasesMembers(ps, VisitSizes(ps, order, p), p, ps.info[p].aliasSet);
    NeedsApart(ps, p);
  }

  // ----- the code of one record -----

  /** The number of a record, 0 when there is none. */
  function Index(order: Order, v: Value): nat {
    if order == [] || v !in order then 0
    else if order[0] == v then 0 else 1 + Index(order[1..], v)
  }

  lemma {:induction false} IndexAt(order: Order, v: Value)
    requires v in order
    ensures Index(order, v) < |order| && order[Index(order, v)] == v
  {
    if order[0] != v { IndexAt(order[1..], v); }
  }

  function CandidateArgs(ps: Pointers, order: Order, aliases: seq<Value>): seq<Operand> {
    if aliases == [] then []
    else
      var a := aliases[0];
      SizeArgs(ps, a) + [Const(Index(order, a)), Use(a)] + CandidateArgs(ps, order, aliases[1..])
  }

  function SizeArgs(ps: Pointers, p: Value): seq<Operand> {
    if p in ps.info then [ps.info[p].typeSizeInBits, ps.info[p].numElements] else [Const(0), Const(0)]
  }

  /** The save of `v` when the records of `order` are there. */
  function SaveOf(ps: Pointers, ty: Types, order: Order, v: Value): Instr {
    if v !in ps.info then Instr(None, SaveScalar(ty.Width(v)), [Use(v)])
    else if ty.OriginOf(v).Derived? then
      Instr(None, SaveAlias, SizeArgs(ps, v) + [Use(v)] + CandidateArgs(ps, order, ps.info[v].aliasSet))
    else Instr(None, SavePointer, SizeArgs(ps, v) + [Use(v)])
  }

  function RestoredAs(l: Label, o: Operand): Operand {
    if o.Use? then Use(Restored(o.v, l)) else o
  }

  function RestoredSizes(ps: Pointers, l: Label, p: Value): seq<Operand> {
    if p in ps.info then [RestoredAs(l, ps.info[p].typeSizeInBits), RestoredAs(l, ps.info[p].numElements)]
    else [Const(0), Const(0)]
  }

  /** The restore of `v` in block `l`: memory is allocated anew and then filled. */
  function RestoreOf(ps: Pointers, ty: Types, l: Label, v: Value): seq<Instr> {
    var dst := Some(Restored(v, l));
    if v !in ps.info then [Instr(dst, LoadScalar(ty.Width(v)), [])]
    else
      var sizes := RestoredSizes(ps, l, v);
      match ty.OriginOf(v)
      case Stack(elemBits, count) =>
        [Instr(dst, NewStack(elemBits, count), []), Instr(None, LoadPointer, sizes + [Use(Restored(v, l))])]
      case Heap =>
        [Instr(dst, NewHeap, [sizes[1]]), Instr(None, LoadPointer, sizes + [Use(Restored(v, l))])]
      case Derived => [Instr(dst, LoadAlias, sizes)]
  }

  function SavesOf(ps: Pointers, ty: Types, order: Order): (saves: seq<Instr>)
    ensures |saves| == |order|
    decreases |order|
  {
    if order == [] then []
    else
      SavesOf(ps, ty, Before(order)) + [SaveOf(ps, ty, Before(order), Latest(order))]
  }

  function RestoresOf(ps: Pointers, ty: Types, l: Label, order: Order): seq<Instr>
    decreases |order|
  {
    if order == [] then [] else RestoresOf(ps, ty, l, Before(order)) + RestoreOf(ps, ty, l, Latest(order))
  }

  // ----- how it is emitted -----

  /** The sizes of a pointer are scalars, and visited as such. */
  lemma ScalarsVisited(ps: Pointers, order: Order, p: Value)
    requires ps.Acyclic() && ScalarSizes(ps) && p in ps.info
    ensures var size, count := ps.info[p].typeSizeInBits, ps.info[p].numElements;
            && (size.Use? ==> size.v !in ps.info && ps.Measure(size.v) == 0)
            && (count.Use? ==> count.v !in ps.info && ps.Measure(count.v) == 0)
            && var first := if size.Use? then Visit(ps, order, size.v) else order;
               VisitSizes(ps, order, p) == if count.Use? then Visit(ps, first, count.v) else first
  {
    var size, count := ps.info[p].typeSizeInBits, ps.info[p].numElements;
    assert size.Use? ==> size.v in OperandUses(size);
    assert count.Use? ==> count.v in OperandUses(count);
  }

  /** Marks where a proof looks inside the invariant of the helper. */
  ghost predicate Inside(k: nat) { true }

  /** The index map of the records so far. */
  ghost predicate Numbered(order: Order, indices: map<Value, nat>) {
    (forall v :: v in indices <==> v in order) && forall v :: v in indices ==> indices[v] == Index(order, v)
  }

  /** The restored operand of each record, and constants as themselves. */
  ghost predicate RestoredBy(l: Label, order: Order, restored: map<Operand, Operand>) {
    && (forall v :: Use(v) in restored <==> v in order)
    && forall o :: o in restored ==> restored[o] == RestoredAs(l, o)
  }

  ghost predicate NamesRestored(l: Label, names: map<Value, Value>) {
    forall v :: v in names ==> names[v] == Restored(v, l)
  }

  lemma NumberedAppend(order: Order, indices: map<Value, nat>, v: Value)
    requires Numbered(order, indices) && v !in order
    ensures Numbered(order + [v], indices[v := |order|])
  {
    IndexAppend(order, v);
  }

  lemma RestoredAppend(l: Label, order: Order, restored: map<Operand, Operand>, v: Value)
    requires RestoredBy(l, order, restored) && v !in order
    ensures RestoredBy(l, order + [v], restored[Use(v) := Use(Restored(v, l))])
  {
  }

  /** `CheckpointRestartBlockHelper`, with the code of its two blocks. */
  class CheckpointRestartBlockHelper {
    const ps: Pointers
    const ty: Types
    const restart: Label
    const checkpointLabel: nat
    var checkpointedToRestoreMap: map<Operand, Operand>
    var checkpointedToIndexMap: map<Value, nat>
    var nextCheckpointLabel: nat
    var saves: seq<Instr>
    var restores: seq<Instr>
    var liveMapping: map<Value, Value>
    ghost var order: Order

    /** Everything recorded so far agrees with `order`; marked, so that proofs look inside only where they need to. */
    ghost predicate Valid()
      reads this`order, this`saves, this`restores
      reads this`checkpointedToRestoreMap, this`checkpointedToIndexMap, this`nextCheckpointLabel
    {
      forall k: nat {:trigger Inside(k)} :: Inside(k) ==>
        && WellOrdered(ps, order) && nextCheckpointLabel == |order|
        && saves == SavesOf(ps, ty, order) && restores == RestoresOf(ps, ty, restart, order)
        && Numbered(order, checkpointedToIndexMap) && RestoredBy(restart, order, checkpointedToRestoreMap)
    }

    /** The live mapping has the restored name of every record. */
    ghost predicate Complete()
      reads this`order, this`liveMapping
    {
      liveMapping.Keys == Members(order) && NamesRestored(restart, liveMapping)
    }

    /** The same, for all but a value that is being recorded. */
    ghost predicate CompleteBut(v: Value)
      reads this`order, this`liveMapping
    {
      liveMapping.Keys + {v} == Members(order) && NamesRestored(restart, liveMapping)
    }

    constructor (ps: Pointers, ty: Types, restart: Label, checkpointLabel: nat)
      ensures Valid() && Complete() && order == []
      ensures this.ps == ps && this.ty == ty && this.restart == restart && this.checkpointLabel == checkpointLabel
    {
      this.ps, this.ty, this.restart, this.checkpointLabel := ps, ty, restart, checkpointLabel;
      checkpointedToRestoreMap, checkpointedToIndexMap, nextCheckpointLabel := map[], map[], 0;
      saves, restores, liveMapping, order := [], [], map[], [];
    }

    /** `addToCheckpointMap`, with the code of the record. */
    method AddRecord(v: Value, save: Instr, restore: seq<Instr>) returns (to: Operand)
      requires Valid() && v !in order && Direct(ps, v) <= Members(order)
      requires save == SaveOf(ps, ty, order, v) && restore == RestoreOf(ps, ty, restart, v)
      modifies this`order, this`saves, this`restores
      modifies this`checkpointedToRestoreMap, this`checkpointedToIndexMap, this`nextCheckpointLabel
      ensures Valid() && order == old(order) + [v] && to == Use(Restored(v, restart))
    {
      assert Inside(0);
      AppendOrdered(ps, order, v);
      BeforeAppend(order, v);
      NumberedAppend(order, checkpointedToIndexMap, v);
      RestoredAppend(restart, order, checkpointedToRestoreMap, v);
      saves, restores := saves + [save], restores + restore;
      to := Use(Restored(v, restart));
      checkpointedToRestoreMap := checkpointedToRestoreMap[Use(v) := to];
      checkpointedToIndexMap := checkpointedToIndexMap[v := nextCheckpointLabel];
      nextCheckpointLabel := nextCheckpointLabel + 1;
      order := order + [v];
    }

    method Checkpointed(v: Value) returns (restored: Option<Operand>)
      requires Valid()
      ensures restored == if v in order then Some(Use(Restored(v, restart))) else None
    {
      assert Inside(0);
      restored := if Use(v) in checkpointedToRestoreMap then Some(checkpointedToRestoreMap[Use(v)]) else None;
    }

    /** `checkpointRestoreLiveValue` */
    method CheckpointRestoreLiveValue(o: Operand) returns (restored: Operand)
      requires PointersOk(ps) && Valid() && Complete()
      modifies this
      ensures Valid() && Complete()
      ensures order == (if o.Use? then Visit(ps, old(order), o.v) else old(order)) && restored == RestoredAs(restart, o)
      decreases if o.Use? then ps.Measure(o.v) else 0, 2, 0
    {
      match o
      case Use(liveValue) =>
        if liveValue in ps.info {
          restored := CheckpointRestoreLiveValuePointer(liveValue);
        } else {
          restored := CheckpointRestoreLiveValueScalar(liveValue);
        }
        liveMapping := liveMapping[liveValue := restored.v];
      case Const(_) =>
        restored := CheckpointRestoreConstant(o);
    }

    method CheckpointRestoreConstant(constant: Operand) returns (restored: Operand)
      requires Valid() && constant.Const?
      modifies this`checkpointedToRestoreMap
      ensures Valid() && restored == constant
    {
      assert Inside(0);
      checkpointedToRestoreMap := checkpointedToRestoreMap[constant := constant];
      restored := constant;
    }

    method CheckpointRestoreLiveValueScalar(liveValue: Value) returns (restored: Operand)
      requires PointersOk(ps) && Valid() && Complete() && liveValue !in ps.info
      modifies this
      ensures Valid() && CompleteBut(liveValue)
      ensures order == Visit(ps, old(order), liveValue) && restored == Use(Restored(liveValue, restart))
    {
      AppendMembers(order, liveValue);
      var known := Checkpointed(liveValue);
      if known.Some? {
        restored := known.value;
      } else {
        var width := ty.Width(liveValue);
        restored := AddRecord(liveValue, Instr(None, SaveScalar(width), [Use(liveValue)]),
                              [Instr(Some(Restored(liveValue, restart)), LoadScalar(width), [])]);
      }
    }

    method CheckpointRestoreLiveValuePointer(liveValue: Value) returns (restored: Operand)
      requires PointersOk(ps) && Valid() && Complete() && liveValue in ps.info
      modifies this
      ensures Valid() && CompleteBut(liveValue)
      ensures order == Visit(ps, old(order), liveValue) && restored == Use(Restored(liveValue, restart))
      decreases ps.Measure(liveValue), 1, 0
    {
      var info := ps.info[liveValue];
      ScalarsVisited(ps, order, liveValue);
      // the sizes come before the pointer itself
      var restoreTypeSizeInBits := CheckpointRestoreLiveValue(info.typeSizeInBits);
      var restoreNumElements := CheckpointRestoreLiveValue(info.numElements);
      CheckpointRestoreAliases(liveValue, info.aliasSet);
      NeedsBefore(ps, old(order), liveValue);
      AppendMembers(order, liveValue);
      var known := Checkpointed(liveValue);
      if known.Some? {
        restored := known.value;
      } else {
        restored := AddPointer(liveValue, restoreTypeSizeInBits, restoreNumElements);
      }
    }

    /** The save and the restore of a pointer, by where it comes from. */
    method AddPointer(liveValue: Value, restoreTypeSizeInBits: Operand, restoreNumElements: Operand)
      returns (restored: Operand)
      requires PointersOk(ps) && Valid() && liveValue in ps.info && liveValue !in order && Direct(ps, liveValue) <= Members(order)
      requires [restoreTypeSizeInBits, restoreNumElements] == RestoredSizes(ps, restart, liveValue)
      modifies this`order, this`saves, this`restores
      modifies this`checkpointedToRestoreMap, this`checkpointedToIndexMap, this`nextCheckpointLabel
      ensures Valid() && order == old(order) + [liveValue] && restored == Use(Restored(liveValue, restart))
    {
      var info := ps.info[liveValue];
      var sizes := [restoreTypeSizeInBits, restoreNumElements];
      var dst := Restored(liveValue, restart);
      var args := [info.typeSizeInBits, info.numElements, Use(liveValue)];
      var save, restore;
      match ty.OriginOf(liveValue) {
        case Stack(elemBits, count) =>
          save := Instr(None, SavePointer, args);
          restore := [Instr(Some(dst), NewStack(elemBits, count), []), Instr(None, LoadPointer, sizes + [Use(dst)])];
        case Heap =>
          save := Instr(None, SavePointer, args);
          restore := [Instr(Some(dst), NewHeap, [restoreNumElements]), Instr(None, LoadPointer, sizes + [Use(dst)])];
        case Derived =>
          var candidates := AddCheckpointAliasArgs(info.aliasSet);
          save := Instr(None, SaveAlias, args + candidates);
          restore := [Instr(Some(dst), LoadAlias, sizes)];
      }
      restored := AddRecord(liveValue, save, restore);
    }

    /** The loop over the alias set. */
    method CheckpointRestoreAliases(liveValue: Value, aliases: seq<Value>)
      requires PointersOk(ps) && Valid() && Complete() && liveValue in ps.info
      requires forall a :: a in aliases ==> a in ps.info[liveValue].aliasSet
      modifies this
      ensures Valid() && Complete()
      ensures order == VisitAliases(ps, old(order), liveValue, aliases)
      decreases ps.Measure(liveValue), 0, |aliases|
    {
      if aliases != [] {
        if liveValue != aliases[0] {
          var _ := CheckpointRestoreLiveValue(Use(aliases[0]));
        }
        CheckpointRestoreAliases(liveValue, aliases[1..]);
      }
    }

    /** The candidates of `addCheckpointAliasInstructionsToBlock`: a missing index reads as 0. */
    method AddCheckpointAliasArgs(aliases: seq<Value>) returns (args: seq<Operand>)
      requires Valid() && forall a :: a in aliases ==> a in ps.info
      ensures args == CandidateArgs(ps, order, aliases)
    {
      assert Inside(0);
      args := [];
      var i := |aliases|;
      while i > 0
        invariant 0 <= i <= |aliases| && args == CandidateArgs(ps, order, aliases[i..])
      {
        i := i - 1;
        var alias := aliases[i];
        var aliasInfo := ps.info[alias];
        var index := if alias in checkpointedToIndexMap then checkpointedToIndexMap[alias] else 0;
        assert index == Index(order, alias);
        assert aliases[i..][1..] == aliases[i + 1..];
        args := [aliasInfo.typeSizeInBits, aliasInfo.numElements, Const(index), Use(alias)] + args;
      }
    }
  }

  lemma {:induction false} IndexAppend(order: Order, v: Value)
    requires v !in order
    ensures Index(order + [v], v) == |order|
    ensures forall a :: a in order ==> Index(order + [v], a) == Index(order, a)
  {
    if order != [] {
      IndexAppend(order[1..], v);
      assert (order + [v])[1..] == order[1..] + [v];
    }
  }
}
