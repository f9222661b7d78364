/**
  `pointerAnalysis` as a whole: what it finds out about a function whose instructions are typed,
  and that this is what the pass relies on, once blocks are split.
 */
module PointerAnalysis {
  import opened Records
  import opened IR
  import opened Pointers
  import opened Emission
  import opened PhiAlias
  import opened PointerSizes
  import opened Locality

  // ----- the function before the analysis -----

  predicate Fits(ty: Types, pointers: set<Value>, width: nat, o: Operand) {
    match o
    case Const(k) => k < Pow2(width)
    case Use(v) => v !in pointers && ty.Width(v) == width
  }

  /** What an instruction makes; sizes and counts are 64-bit words. */
  predicate InstrRaw(ty: Types, pointers: set<Value>, v: Value, op: Op, args: seq<Operand>) {
    match op
    case NewStack(elemBits, count) =>
      v in pointers && ty.OriginOf(v) == Stack(elemBits, count) && elemBits < Pow2(64) && count < Pow2(64)
    case NewHeap => v in pointers && ty.OriginOf(v) == Heap && |args| > 0 && Fits(ty, pointers, 64, args[0])
    case Offset(_) => v in pointers && ty.OriginOf(v) == Derived && |args| > 0 && args[0].Use? && args[0].v in pointers
    case Cast => v in pointers && ty.OriginOf(v) == Derived && |args| > 0 && args[0].Use? && args[0].v in pointers
    case Arith(_, width) => v !in pointers && ty.Width(v) == width
    case Read(_, width) => v !in pointers && ty.Width(v) == width
    case PtrEq => v !in pointers && ty.Width(v) >= 1
    case _ => v !in pointers
  }

  predicate PhiRaw(ty: Types, pointers: set<Value>, x: Value, o: Operand) {
    if x in pointers then o.Use? && o.v in pointers else Fits(ty, pointers, ty.Width(x), o)
  }

  predicate BlockRaw(ty: Types, pointers: set<Value>, b: Block) {
    && (forall i :: i in b.body && i.dst.Some? ==> InstrRaw(ty, pointers, i.dst.value, i.op, i.args))
    && (forall x, m :: x in b.phis && m in b.phis[x] ==> PhiRaw(ty, pointers, x, b.phis[x][m]))
    && (forall x :: x in b.phis && x in pointers ==> ty.OriginOf(x).Derived?)
    && b.phis.Keys !! Dsts(b.body) && Once(b.body)
  }

  /** No name is made twice. */
  predicate Once(body: seq<Instr>) {
    forall j, k :: 0 <= j < k < |body| && body[j].dst.Some? ==> body[j].dst != body[k].dst
  }

  /** The code of some blocks. */
  function Code(p: Program, labels: set<Label>): set<Instr> {
    set n, i | n in labels && n in p.blocks && i in p.blocks[n].body :: i
  }

  /** No name is made by two instructions. */
  ghost predicate OneEach(code: set<Instr>) {
    forall k {:trigger InOnes(k)} :: InOnes(k) ==> forall i, j :: i in code && j in code && i.dst.Some? && i.dst == j.dst ==> i == j
  }

  /** Marks where a proof looks inside `OneEach` and `OneMaker`. */
  ghost predicate InOnes(k: nat) { true }

  function Derives(i: Instr): bool {
    i.dst.Some? && (i.op.Offset? || i.op.Cast?) && |i.args| > 0 && i.args[0].Use?
  }

  function Makes(i: Instr): bool {
    i.dst.Some? && (i.op.NewStack? || (i.op.NewHeap? && |i.args| > 0))
  }

  /** `AllocationPointerAliasInfo` */
  function AllocationInfo(i: Instr): PointerInfo
    requires Makes(i)
  {
    match i.op
    case NewStack(elemBits, count) => PointerInfo(Const(elemBits), Const(count), [i.dst.value])
    case _ => PointerInfo(Const(8), i.args[0], [i.dst.value])
  }

  ghost function Allocations(code: set<Instr>): Infos
    requires OneEach(code)
  {
    assert InOnes(0);
    map i | i in code && Makes(i) :: i.dst.value := AllocationInfo(i)
  }

  ghost function Derivations(code: set<Instr>): map<Value, Value>
    requires OneEach(code)
  {
    assert InOnes(0);
    map i | i in code && Derives(i) :: i.dst.value := i.args[0].v
  }

  /** Phis of different blocks, and instructions, make different names. */
  ghost predicate OneMaker(p: Program) {
    && OneEach(Code(p, p.blocks.Keys))
    && forall k {:trigger InOnes(k)} :: InOnes(k) ==>
         && (forall m, n, x :: m in p.blocks && n in p.blocks && x in p.blocks[m].phis && x in p.blocks[n].phis ==> m == n)
         && forall n, x, i :: n in p.blocks && x in p.blocks[n].phis && i in Code(p, p.blocks.Keys) ==> i.dst != Some(x)
  }

  /** The pointer phis of some blocks. */
  ghost function PointerPhis(p: Program, pointers: set<Value>, labels: set<Label>): map<Value, Incoming>
    requires OneMaker(p)
  {
    assert InOnes(0);
    map n, x | n in labels && n in p.blocks && x in p.blocks[n].phis && x in pointers :: x := p.blocks[n].phis[x]
  }

  ghost predicate Raw(ty: Types, pointers: set<Value>, p: Program) {
    && OneMaker(p)
    && forall k {:trigger InRaw(k)} :: InRaw(k) ==>
         && p.args !! pointers
         && (forall n :: n in p.blocks ==> BlockRaw(ty, pointers, p.blocks[n]))
         && forall v :: v in pointers ==>
              || (exists n :: n in p.blocks && v in p.blocks[n].phis)
              || exists i :: i in Code(p, p.blocks.Keys) && i.dst == Some(v)
  }

  /** Marks where a proof looks inside `Raw`. */
  ghost predicate InRaw(k: nat) { true }

  // ----- sorting the pointers -----

  function InstrsOf(body: seq<Instr>): set<Instr> {
    set i | i in body
  }

  lemma CodeMore(p: Program, labels: set<Label>, n: Label)
    requires n in p.blocks
    ensures Code(p, labels + {n}) == Code(p, labels) + InstrsOf(p.blocks[n].body)
  {
  }

  lemma OneMore(code: set<Instr>, more: set<Instr>, i: Instr)
    requires OneEach(more) && code <= more && i in more
    ensures OneEach(code) && OneEach(code + {i})
    ensures Allocations(code + {i}) == if Makes(i) then Allocations(code)[i.dst.value := AllocationInfo(i)] else Allocations(code)
    ensures Derivations(code + {i}) == if Derives(i) then Derivations(code)[i.dst.value := i.args[0].v] else Derivations(code)
  {
    assert InOnes(0);
  }

  /** The instructions of one block. */
  method SortBody(body: seq<Instr>, ghost code: set<Instr>, known0: Infos, base0: map<Value, Value>)
    returns (known: Infos, base: map<Value, Value>)
    requires OneEach(code + InstrsOf(body)) && OneEach(code)
    requires known0 == Allocations(code) && base0 == Derivations(code)
    ensures known == Allocations(code + InstrsOf(body)) && base == Derivations(code + InstrsOf(body))
  {
    known, base := known0, base0;
    ghost var seen := code;
    var k := 0;
    while k < |body|
      invariant k <= |body| && seen == code + InstrsOf(body[..k]) && OneEach(seen)
      invariant known == Allocations(seen) && base == Derivations(seen)
    {
      var i := body[k];
      assert body[..k + 1] == body[..k] + [i];
      OneMore(seen, code + InstrsOf(body), i);
      seen := seen + {i};
      if Makes(i) {
        known := known[i.dst.value := AllocationInfo(i)];
      } else if Derives(i) {
        base := base[i.dst.value := i.args[0].v];
      }
      k := k + 1;
    }
    assert body[..k] == body;
  }

  ghost predicate PhiIn(p: Program, pointers: set<Value>, labels: set<Label>, x: Value) {
    x in pointers && exists n :: n in labels && n in p.blocks && x in p.blocks[n].phis
  }

  lemma PhiKey(p: Program, pointers: set<Value>, labels: set<Label>, x: Value)
    requires OneMaker(p)
    ensures x in PointerPhis(p, pointers, labels) <==> PhiIn(p, pointers, labels, x)
    ensures forall n :: n in p.blocks && x in p.blocks[n].phis && x in PointerPhis(p, pointers, labels) ==>
                          PointerPhis(p, pointers, labels)[x] == p.blocks[n].phis[x]
  {
    assert InOnes(0);
  }

  lemma PhisMore(p: Program, pointers: set<Value>, labels: set<Label>, n: Label)
    requires OneMaker(p) && n in p.blocks
    ensures PointerPhis(p, pointers, labels + {n}) ==
            PointerPhis(p, pointers, labels) + map x | x in p.blocks[n].phis && x in pointers :: p.blocks[n].phis[x]
  {
    var before, after := PointerPhis(p, pointers, labels), PointerPhis(p, pointers, labels + {n});
    var own := map x | x in p.blocks[n].phis && x in pointers :: p.blocks[n].phis[x];
    forall x ensures (x in after <==> x in before || x in own) && (x in after ==> after[x] == if x in own then own[x] else before[x]) {
      PhiKey(p, pointers, labels, x);
      PhiKey(p, pointers, labels + {n}, x);
    }
    assert after.Keys == (before + own).Keys;
  }

  /** All allocations, derived pointers and pointer phis of the function. */
  method SortPointers(p: Program, pointers: set<Value>)
    returns (known: Infos, base: map<Value, Value>, phis: map<Value, Incoming>)
    requires OneMaker(p)
    ensures known == Allocations(Code(p, p.blocks.Keys)) && base == Derivations(Code(p, p.blocks.Keys))
    ensures phis == PointerPhis(p, pointers, p.blocks.Keys)
  {
    known, base, phis := map[], map[], map[];
    var todo := p.blocks.Keys;
    assert p.blocks.Keys - todo == {} && Code(p, {}) == {};
    while todo != {}
      invariant todo <= p.blocks.Keys && OneEach(Code(p, p.blocks.Keys - todo))
      invariant known == Allocations(Code(p, p.blocks.Keys - todo)) && base == Derivations(Code(p, p.blocks.Keys - todo))
      invariant phis == PointerPhis(p, pointers, p.blocks.Keys - todo)
      decreases todo
    {
      var n :| n in todo;
      ghost var done := p.blocks.Keys - todo;
      CodeMore(p, done, n);
      assert done + {n} == p.blocks.Keys - (todo - {n});
      assert Code(p, done + {n}) <= Code(p, p.blocks.Keys);
      known, base := SortBody(p.blocks[n].body, Code(p, done), known, base);
      PhisMore(p, pointers, done, n);
      phis := phis + map x | x in p.blocks[n].phis && x in pointers :: p.blocks[n].phis[x];
      todo := todo - {n};
    }
    assert p.blocks.Keys - todo == p.blocks.Keys;
  }

  // ----- names for the size phis -----

  /** A name the function neither makes nor uses. */
  ghost predicate NewName(ty: Types, pointers: set<Value>, p: Program, v: Value) {
    && v.Src? && v !in pointers && ty.Width(v) == 64 && v !in p.args
    && (forall n :: n in p.blocks ==> v !in p.blocks[n].phis && v !in Dsts(p.blocks[n].body))
    && forall n :: n in p.blocks ==> v !in UsedBy(p.blocks[n])
  }

  /** The operands of a block that it does not define before, those of its phis among them. */
  function UsedBy(b: Block): set<Value> {
    Outside(b.body, b.term) + set x, m | x in b.phis && m in b.phis[x] && b.phis[x][m].Use? :: b.phis[x][m].v
  }

  /** Two new scalars for each pointer phi. */
  ghost predicate NamesOk(ty: Types, pointers: set<Value>, p: Program, xs: set<Value>, sizeOf: map<Value, Value>, countOf: map<Value, Value>) {
    && sizeOf.Keys == xs && countOf.Keys == xs
    && (forall x :: x in xs ==> NewName(ty, pointers, p, sizeOf[x]) && NewName(ty, pointers, p, countOf[x]))
    && (forall x, y :: x in xs && y in xs ==> sizeOf[x] != countOf[y])
    && (forall x, y :: x in xs && y in xs && (sizeOf[x] == sizeOf[y] || countOf[x] == countOf[y]) ==> x == y)
  }

  function PhiInfos(phis: map<Value, Incoming>, sizeOf: map<Value, Value>, countOf: map<Value, Value>): Infos
    requires phis.Keys <= sizeOf.Keys && phis.Keys <= countOf.Keys
  {
    map x | x in phis :: PointerInfo(Use(sizeOf[x]), Use(countOf[x]), [])
  }

  /** What is known before any pointer is derived from another. */
  ghost function KnownFirst(code: set<Instr>, phis: map<Value, Incoming>, sizeOf: map<Value, Value>, countOf: map<Value, Value>): Infos
    requires OneEach(code) && phis.Keys <= sizeOf.Keys && phis.Keys <= countOf.Keys
  {
    Allocations(code) + PhiInfos(phis, sizeOf, countOf)
  }

  // ----- every pointer is known -----

  lemma AllocationAt(code: set<Instr>, i: Instr)
    requires OneEach(code) && i in code && Makes(i)
    ensures i.dst.value in Allocations(code) && Allocations(code)[i.dst.value] == AllocationInfo(i)
  {
    assert InOnes(0);
  }

  lemma DerivationAt(code: set<Instr>, i: Instr)
    requires OneEach(code) && i in code && Derives(i)
    ensures i.dst.value in Derivations(code) && Derivations(code)[i.dst.value] == i.args[0].v
  {
    assert InOnes(0);
  }

  lemma PhiAt(p: Program, pointers: set<Value>, n: Label, x: Value)
    requires OneMaker(p) && n in p.blocks && x in p.blocks[n].phis && x in pointers
    ensures var phis := PointerPhis(p, pointers, p.blocks.Keys);
            x in phis && phis[x] == p.blocks[n].phis[x]
  {
    assert InOnes(0);
  }

  lemma PhiFrom(p: Program, pointers: set<Value>, x: Value) returns (n: Label)
    requires OneMaker(p) && x in PointerPhis(p, pointers, p.blocks.Keys)
    ensures n in p.blocks && x in p.blocks[n].phis && x in pointers
    ensures PointerPhis(p, pointers, p.blocks.Keys)[x] == p.blocks[n].phis[x]
  {
    assert InOnes(0);
    n :| n in p.blocks.Keys && n in p.blocks && x in p.blocks[n].phis && x in pointers;
  }

  lemma InCode(p: Program, i: Instr) returns (n: Label)
    requires i in Code(p, p.blocks.Keys)
    ensures n in p.blocks && i in p.blocks[n].body
  {
    n :| n in p.blocks.Keys && n in p.blocks && i in p.blocks[n].body;
  }

  /** What is made or derived is a pointer. */
  lemma MadeIsPointer(ty: Types, pointers: set<Value>, p: Program, i: Instr)
    requires Raw(ty, pointers, p) && i in Code(p, p.blocks.Keys) && i.dst.Some?
    ensures i.dst.value in pointers <==> Makes(i) || Derives(i)
    ensures InstrRaw(ty, pointers, i.dst.value, i.op, i.args)
  {
    assert InRaw(0);
    var n := InCode(p, i);
    assert BlockRaw(ty, pointers, p.blocks[n]);
  }

  lemma AllocationFrom(code: set<Instr>, v: Value) returns (i: Instr)
    requires OneEach(code) && v in Allocations(code)
    ensures i in code && Makes(i) && i.dst == Some(v)
  {
    assert InOnes(0);
    i :| i in code && Makes(i) && i.dst.value == v;
  }

  lemma DerivationFrom(code: set<Instr>, v: Value) returns (i: Instr)
    requires OneEach(code) && v in Derivations(code)
    ensures i in code && Derives(i) && i.dst == Some(v)
  {
    assert InOnes(0);
    i :| i in code && Derives(i) && i.dst.value == v;
  }

  /** A pointer comes from exactly one of the three. */
  lemma OneSource(ty: Types, pointers: set<Value>, p: Program, v: Value)
    requires Raw(ty, pointers, p)
    ensures var code, phis := Code(p, p.blocks.Keys), PointerPhis(p, pointers, p.blocks.Keys);
            && (v in pointers ==> v in Allocations(code) || v in Derivations(code) || v in phis)
            && (v in Allocations(code) ==> v in pointers && v !in Derivations(code) && v !in phis)
            && (v in Derivations(code) ==> v in pointers && v !in phis)
            && (v in phis ==> v in pointers)
  {
    if v in pointers { SomeSource(ty, pointers, p, v); }
    if v in Allocations(Code(p, p.blocks.Keys)) { AllocationOnly(ty, pointers, p, v); }
    if v in Derivations(Code(p, p.blocks.Keys)) { DerivationOnly(ty, pointers, p, v); }
    if v in PointerPhis(p, pointers, p.blocks.Keys) { var n := PhiFrom(p, pointers, v); }
  }

  lemma SomeSource(ty: Types, pointers: set<Value>, p: Program, v: Value)
    requires Raw(ty, pointers, p) && v in pointers
    ensures var code, phis := Code(p, p.blocks.Keys), PointerPhis(p, pointers, p.blocks.Keys);
            v in Allocations(code) || v in Derivations(code) || v in phis
  {
    assert InRaw(0);
    if n :| n in p.blocks && v in p.blocks[n].phis {
      PhiAt(p, pointers, n, v);
    } else {
      var i :| i in Code(p, p.blocks.Keys) && i.dst == Some(v);
      MadeIsPointer(ty, pointers, p, i);
      if Makes(i) { AllocationAt(Code(p, p.blocks.Keys), i); } else { DerivationAt(Code(p, p.blocks.Keys), i); }
    }
  }

  lemma NotPhi(p: Program, pointers: set<Value>, i: Instr)
    requires OneMaker(p) && i in Code(p, p.blocks.Keys) && i.dst.Some?
    ensures i.dst.value !in PointerPhis(p, pointers, p.blocks.Keys)
  {
    assert InOnes(0);
    if i.dst.value in PointerPhis(p, pointers, p.blocks.Keys) { var n := PhiFrom(p, pointers, i.dst.value); }
  }

  lemma AllocationOnly(ty: Types, pointers: set<Value>, p: Program, v: Value)
    requires Raw(ty, pointers, p) && v in Allocations(Code(p, p.blocks.Keys))
    ensures v in pointers && v !in Derivations(Code(p, p.blocks.Keys)) && v !in PointerPhis(p, pointers, p.blocks.Keys)
  {
    assert InOnes(0);
    var i := AllocationFrom(Code(p, p.blocks.Keys), v);
    MadeIsPointer(ty, pointers, p, i);
    NotPhi(p, pointers, i);
    if v in Derivations(Code(p, p.blocks.Keys)) { var j := DerivationFrom(Code(p, p.blocks.Keys), v); }
  }

  lemma DerivationOnly(ty: Types, pointers: set<Value>, p: Program, v: Value)
    requires Raw(ty, pointers, p) && v in Derivations(Code(p, p.blocks.Keys))
    ensures v in pointers && v !in PointerPhis(p, pointers, p.blocks.Keys)
  {
    var i := DerivationFrom(Code(p, p.blocks.Keys), v);
    MadeIsPointer(ty, pointers, p, i);
    NotPhi(p, pointers, i);
  }

  // ----- sizes -----

  /** The analysis behind its first worklist. */
  ghost predicate SizesFound(p: Program, phis: map<Value, Incoming>, sizeOf: map<Value, Value>, countOf: map<Value, Value>, rank: Rank,
                        info: Infos)
  {
    && OneMaker(p) && phis.Keys <= sizeOf.Keys && phis.Keys <= countOf.Keys
    && forall k {:trigger InSizes(k)} :: InSizes(k) ==>
         var code := Code(p, p.blocks.Keys);
         var known, base := KnownFirst(code, phis, sizeOf, countOf), Derivations(code);
         && Rooted(base, known.Keys, rank) && known.Keys !! base.Keys && Found(known, base, rank, {}, info)
  }

  /** Marks where a proof looks inside `SizesFound`. */
  ghost predicate InSizes(k: nat) { true }

  lemma SizedKeys(ty: Types, pointers: set<Value>, p: Program, phis: map<Value, Incoming>, sizeOf: map<Value, Value>,
                  countOf: map<Value, Value>, rank: Rank, info: Infos)
    requires Raw(ty, pointers, p) && phis == PointerPhis(p, pointers, p.blocks.Keys) && SizesFound(p, phis, sizeOf, countOf, rank, info)
    ensures info.Keys == pointers
  {
    assert InSizes(0);
    forall v ensures v in info <==> v in pointers { OneSource(ty, pointers, p, v); }
  }

  lemma SizedAllocation(p: Program, phis: map<Value, Incoming>, sizeOf: map<Value, Value>, countOf: map<Value, Value>, rank: Rank,
                        info: Infos, i: Instr)
    requires SizesFound(p, phis, sizeOf, countOf, rank, info) && i in Code(p, p.blocks.Keys) && Makes(i) && i.dst.value !in phis
    ensures i.dst.value in info && info[i.dst.value] == AllocationInfo(i)
  {
    assert InSizes(0);
    AllocationAt(Code(p, p.blocks.Keys), i);
    var known := KnownFirst(Code(p, p.blocks.Keys), phis, sizeOf, countOf);
    assert i.dst.value in known && known[i.dst.value] == AllocationInfo(i);
  }

  lemma SizedPhi(p: Program, phis: map<Value, Incoming>, sizeOf: map<Value, Value>, countOf: map<Value, Value>, rank: Rank,
                 info: Infos, x: Value)
    requires SizesFound(p, phis, sizeOf, countOf, rank, info) && x in phis
    ensures x in info && info[x] == PointerInfo(Use(sizeOf[x]), Use(countOf[x]), [])
  {
    assert InSizes(0);
    var known := KnownFirst(Code(p, p.blocks.Keys), phis, sizeOf, countOf);
    assert x in known && known[x] == PointerInfo(Use(sizeOf[x]), Use(countOf[x]), []);
  }

  lemma SizedDerived(p: Program, phis: map<Value, Incoming>, sizeOf: map<Value, Value>, countOf: map<Value, Value>, rank: Rank,
                     info: Infos, i: Instr)
    requires SizesFound(p, phis, sizeOf, countOf, rank, info) && i in Code(p, p.blocks.Keys) && Derives(i)
    ensures i.dst.value in info && i.args[0].v in info && Inherits(info[i.dst.value], info[i.args[0].v], i.args[0].v)
    ensures i.args[0].v != i.dst.value
  {
    assert InSizes(0);
    var code := Code(p, p.blocks.Keys);
    DerivationAt(code, i);
    InheritsFromBase(KnownFirst(code, phis, sizeOf, countOf), Derivations(code), rank, info, i.dst.value);
  }

  ghost predicate Fits64(ty: Types, pointers: set<Value>, info: PointerInfo) {
    Fits(ty, pointers, 64, info.typeSizeInBits) && Fits(ty, pointers, 64, info.numElements)
  }

  lemma AllocationFits(ty: Types, pointers: set<Value>, p: Program, i: Instr)
    requires Raw(ty, pointers, p) && i in Code(p, p.blocks.Keys) && Makes(i)
    ensures Fits64(ty, pointers, AllocationInfo(i))
  {
    MadeIsPointer(ty, pointers, p, i);
    EightFits();
  }

  lemma EightFits()
    ensures 8 < Pow2(64)
  {
    assert Pow2(4) == 16;
    PowGrows(4, 64);
  }

  lemma {:induction false} PowGrows(m: nat, n: nat)
    requires m <= n
    ensures Pow2(m) <= Pow2(n)
    decreases n
  {
    if m < n { PowGrows(m, n - 1); }
  }

  lemma FirstFits(ty: Types, pointers: set<Value>, p: Program, phis: map<Value, Incoming>, sizeOf: map<Value, Value>,
                  countOf: map<Value, Value>, v: Value)
    requires Raw(ty, pointers, p) && NamesOk(ty, pointers, p, phis.Keys, sizeOf, countOf)
    requires v in KnownFirst(Code(p, p.blocks.Keys), phis, sizeOf, countOf)
    ensures Fits64(ty, pointers, KnownFirst(Code(p, p.blocks.Keys), phis, sizeOf, countOf)[v])
  {
    if v !in phis {
      var i := AllocationFrom(Code(p, p.blocks.Keys), v);
      AllocationAt(Code(p, p.blocks.Keys), i);
      AllocationFits(ty, pointers, p, i);
    }
  }

  lemma SizedFits(ty: Types, pointers: set<Value>, p: Program, phis: map<Value, Incoming>, sizeOf: map<Value, Value>,
                  countOf: map<Value, Value>, rank: Rank, info: Infos, v: Value)
    requires Raw(ty, pointers, p) && NamesOk(ty, pointers, p, phis.Keys, sizeOf, countOf)
    requires SizesFound(p, phis, sizeOf, countOf, rank, info) && v in info
    ensures Fits64(ty, pointers, info[v])
  {
    assert InSizes(0);
    var code := Code(p, p.blocks.Keys);
    var known, base := KnownFirst(code, phis, sizeOf, countOf), Derivations(code);
    var r := Root(base, known.Keys, rank, v);
    FirstFits(ty, pointers, p, phis, sizeOf, countOf, r);
  }

  // ----- aliases of the phis -----

  function IncomingValues(inc: Incoming): set<Value> {
    set m | m in inc && inc[m].Use? :: inc[m].v
  }

  /** The provisional alias sets. */
  function FirstAliases(phis: map<Value, Incoming>): AliasSets {
    map x | x in phis :: IncomingValues(phis[x])
  }

  /** The alias sets of the phis filled in. */
  ghost predicate WithAliases(info: Infos, sets: AliasSets, final: Infos) {
    && final.Keys == info.Keys && sets.Keys <= info.Keys
    && forall v :: v in info ==>
         && (v !in sets ==> final[v] == info[v])
         && (v in sets ==> final[v] == info[v].(aliasSet := final[v].aliasSet) && forall a :: a in final[v].aliasSet <==> a in sets[v])
  }

  method ListSet(s: set<Value>) returns (r: seq<Value>)
    ensures forall v :: v in r <==> v in s
  {
    r := [];
    var todo := s;
    while todo != {}
      invariant todo <= s && forall v :: v in r <==> v in s - todo
      decreases todo
    {
      var v :| v in todo;
      r, todo := r + [v], todo - {v};
    }
  }

  method SetAliases(info: Infos, sets: AliasSets) returns (final: Infos)
    requires sets.Keys <= info.Keys
    ensures WithAliases(info, sets, final)
  {
    final := info;
    var todo := sets.Keys;
    while todo != {}
      invariant todo <= sets.Keys && final.Keys == info.Keys
      invariant forall v :: v in info && (v !in sets || v in todo) ==> final[v] == info[v]
      invariant forall v :: v in sets && v !in todo ==>
                  final[v] == info[v].(aliasSet := final[v].aliasSet) && forall a :: a in final[v].aliasSet <==> a in sets[v]
      decreases todo
    {
      var x :| x in todo;
      var aliases := ListSet(sets[x]);
      final := final[x := info[x].(aliasSet := aliases)];
      todo := todo - {x};
    }
  }

  /** The roots of a phi are incoming values of phis. */
  lemma RootIsIncoming(phis: map<Value, Incoming>, x: Value, v: Value) returns (q: Value)
    requires Roots(FirstAliases(phis), x, v)
    ensures q in phis && v in IncomingValues(phis[q])
  {
    var sets := FirstAliases(phis);
    var path :| AliasPath(sets, path) && path[0] == x && path[|path| - 1] == v;
    q := path[|path| - 2];
    assert path[(|path| - 2) + 1] in sets[path[|path| - 2]];
  }

  lemma IncomingIsPointer(ty: Types, pointers: set<Value>, p: Program, x: Value, m: Label)
    requires Raw(ty, pointers, p) && x in PointerPhis(p, pointers, p.blocks.Keys)
    requires m in PointerPhis(p, pointers, p.blocks.Keys)[x]
    ensures var o := PointerPhis(p, pointers, p.blocks.Keys)[x][m];
            o.Use? && o.v in pointers && ty.OriginOf(x).Derived?
  {
    assert InRaw(0);
    var n := PhiFrom(p, pointers, x);
    assert BlockRaw(ty, pointers, p.blocks[n]);
    assert PhiRaw(ty, pointers, x, p.blocks[n].phis[x][m]);
  }

  /** Behind the loop an alias set holds pointers, and no phi. */
  lemma ResolvedArePointers(ty: Types, pointers: set<Value>, p: Program, sets: AliasSets, noAlias: (Value, Value) -> bool, x: Value, v: Value)
    requires Raw(ty, pointers, p)
    requires var phis := PointerPhis(p, pointers, p.blocks.Keys);
             NoPhis(sets) && RootsKept(FirstAliases(phis), sets, noAlias) && x in phis && x in sets && v in sets[x]
    ensures v in pointers && v !in PointerPhis(p, pointers, p.blocks.Keys)
  {
    var phis := PointerPhis(p, pointers, p.blocks.Keys);
    SetsAreRoots(FirstAliases(phis), sets, noAlias, x);
    var q := RootIsIncoming(phis, x, v);
    var m :| m in phis[q] && phis[q][m] == Use(v);
    IncomingIsPointer(ty, pointers, p, q, m);
  }

  /**
    The aliases found for the phis: values behind them that are no phis, none that the alias analysis rules out for the
    phi unless it comes to the phi itself, and all to which a path leads that is never ruled out.
   */
  ghost predicate AliasesResolved(phis: map<Value, Incoming>, noAlias: (Value, Value) -> bool, info: Infos) {
    forall x :: x in phis && x in info ==> AliasesOf(phis, noAlias, x, info[x].aliasSet)
  }

  ghost predicate AliasesOf(phis: map<Value, Incoming>, noAlias: (Value, Value) -> bool, x: Value, aliases: seq<Value>)
    requires x in phis
  {
    && (forall v :: v in aliases ==>
          v !in phis && Roots(FirstAliases(phis), x, v) && (v in IncomingValues(phis[x]) || !noAlias(x, v)))
    && forall v :: OpenRoots(FirstAliases(phis), x, v, noAlias) ==> v in aliases
  }

  lemma ResolvedAliases(phis: map<Value, Incoming>, noAlias: (Value, Value) -> bool, info: Infos, sets: AliasSets, final: Infos)
    requires NoPhis(sets) && RootsKept(FirstAliases(phis), sets, noAlias) && WithAliases(info, sets, final)
    ensures AliasesResolved(phis, noAlias, final)
  {
    forall x | x in phis && x in final ensures AliasesOf(phis, noAlias, x, final[x].aliasSet) {
      SetsAreRoots(FirstAliases(phis), sets, noAlias, x);
    }
  }

  // ----- size phis -----

  /** The edges of a phi, in some order. */
  ghost predicate Lists(inc: Incoming, edges: Edges) {
    && (forall m :: m in inc && inc[m].Use? ==> (inc[m].v, m) in edges)
    && forall e :: e in edges ==> e.1 in inc && inc[e.1] == Use(e.0)
  }

  method ListEdges(inc: Incoming) returns (edges: Edges)
    ensures Lists(inc, edges)
  {
    edges := [];
    var todo := inc.Keys;
    while todo != {}
      invariant todo <= inc.Keys
      invariant forall m :: m in inc && m !in todo && inc[m].Use? ==> (inc[m].v, m) in edges
      invariant forall e :: e in edges ==> e.1 in inc && inc[e.1] == Use(e.0)
      decreases todo
    {
      var m :| m in todo;
      if inc[m].Use? { edges := edges + [(inc[m].v, m)]; }
      todo := todo - {m};
    }
  }

  method ListAllEdges(phis: map<Value, Incoming>) returns (edges: map<Value, Edges>)
    ensures edges.Keys == phis.Keys && forall x :: x in phis ==> Lists(phis[x], edges[x])
  {
    edges := map[];
    var todo := phis.Keys;
    while todo != {}
      invariant todo <= phis.Keys && edges.Keys == phis.Keys - todo
      invariant forall x :: x in edges ==> Lists(phis[x], edges[x])
      decreases todo
    {
      var x :| x in todo;
      var es := ListEdges(phis[x]);
      edges := edges[x := es];
      todo := todo - {x};
    }
  }

  /** On each edge of a phi, size and count are those of the pointer that is taken. */
  ghost predicate SizesTaken(info: Infos, inc: Incoming, sizes: Incoming, counts: Incoming) {
    && sizes.Keys == inc.Keys && counts.Keys == inc.Keys
    && forall m :: m in inc ==>
         && inc[m].Use? && inc[m].v in info
         && sizes[m] == info[inc[m].v].typeSizeInBits && counts[m] == info[inc[m].v].numElements
  }

  lemma TracksAreTaken(info: Infos, inc: Incoming, edges: Edges, sizes: Incoming, counts: Incoming)
    requires Lists(inc, edges) && TracksSize(info, edges, sizes) && TracksCount(info, edges, counts)
    requires forall m :: m in inc ==> inc[m].Use?
    ensures SizesTaken(info, inc, sizes, counts)
  {
    forall m | m in inc
      ensures m in sizes && m in counts && inc[m].v in info
      ensures sizes[m] == info[inc[m].v].typeSizeInBits && counts[m] == info[inc[m].v].numElements
    {
      var e :| e in edges && e == (inc[m].v, m);
      assert e.1 in Blocks(edges);
    }
    forall m | m in sizes ensures m in inc { var e :| e in edges && e.1 == m; }
    forall m | m in counts ensures m in inc { var e :| e in edges && e.1 == m; }
  }

  lemma ListsConsistent(inc: Incoming, edges: Edges)
    requires Lists(inc, edges)
    ensures Consistent(edges)
  {
  }
}
