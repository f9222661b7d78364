/**
  The function the pass goes on with: its pointers analysed, size phis beside its pointer phis,
  its blocks split; and that it meets what the pass relies on.
 */
module Preparation {
  import opened Records
  import opened IR
  import opened Pointers
  import opened Function
  import opened Locality
  import opened Emission
  import opened Typing
  import opened PhiAlias
  import opened PointerSizes
  import opened PointerAnalysis

  // ----- the analysis, put together -----

  predicate SameInfoSizes(a: PointerInfo, b: PointerInfo) {
    a.typeSizeInBits == b.typeSizeInBits && a.numElements == b.numElements
  }

  /** The pointer an instruction makes. */
  ghost predicate InstrFound(info: Infos, i: Instr) {
    && (Makes(i) ==> i.dst.value in info && info[i.dst.value] == AllocationInfo(i))
    && (Derives(i) ==>
          && i.dst.value in info && i.args[0].v in info && i.args[0].v != i.dst.value
          && SameInfoSizes(info[i.dst.value], info[i.args[0].v]) && info[i.dst.value].aliasSet == [i.args[0].v])
  }

  ghost predicate PhiFound(sizeOf: map<Value, Value>, countOf: map<Value, Value>, info: Infos, x: Value) {
    && x in info && x in sizeOf && x in countOf && x !in info[x].aliasSet
    && info[x].typeSizeInBits == Use(sizeOf[x]) && info[x].numElements == Use(countOf[x])
  }

  ghost predicate ValueFound(ty: Types, pointers: set<Value>, info: Infos, v: Value) {
    v in info && Fits64(ty, pointers, info[v]) && forall a :: a in info[v].aliasSet ==> a in pointers
  }

  /** What the analysis has found out about the pointers of the function. */
  ghost predicate Finds(ty: Types, pointers: set<Value>, p: Program, phis: map<Value, Incoming>, sizeOf: map<Value, Value>,
                        countOf: map<Value, Value>, info: Infos)
  {
    && info.Keys == pointers
    && forall k {:trigger InFinds(k)} :: InFinds(k) ==>
         && (forall i :: i in Code(p, p.blocks.Keys) ==> InstrFound(info, i))
         && (forall x :: x in phis ==> PhiFound(sizeOf, countOf, info, x))
         && forall v :: v in info ==> ValueFound(ty, pointers, info, v)
  }

  /** Marks where a proof looks inside `Finds`. */
  ghost predicate InFinds(k: nat) { true }

  ghost predicate AllTaken(info: Infos, phis: map<Value, Incoming>, sizes: map<Value, Incoming>, counts: map<Value, Incoming>) {
    && sizes.Keys == phis.Keys && counts.Keys == phis.Keys
    && forall x :: x in phis ==> SizesTaken(info, phis[x], sizes[x], counts[x])
  }

  /** What is asked of the function and of the new names. */
  ghost predicate Analysable(ty: Types, pointers: set<Value>, p: Program, sizeOf: map<Value, Value>, countOf: map<Value, Value>, rank: Rank) {
    && Raw(ty, pointers, p)
    && forall k {:trigger InAnalysable(k)} :: InAnalysable(k) ==>
         var code, phis := Code(p, p.blocks.Keys), PointerPhis(p, pointers, p.blocks.Keys);
         && NamesOk(ty, pointers, p, phis.Keys, sizeOf, countOf) && SimpleCycles(FirstAliases(phis))
         && Rooted(Derivations(code), KnownFirst(code, phis, sizeOf, countOf).Keys, rank)
  }

  /** Marks where a proof looks inside `Analysable`. */
  ghost predicate InAnalysable(k: nat) { true }

  lemma SourcesApart(ty: Types, pointers: set<Value>, p: Program, sizeOf: map<Value, Value>, countOf: map<Value, Value>)
    requires Raw(ty, pointers, p)
    requires var xs := PointerPhis(p, pointers, p.blocks.Keys).Keys; xs <= sizeOf.Keys && xs <= countOf.Keys
    ensures var code, phis := Code(p, p.blocks.Keys), PointerPhis(p, pointers, p.blocks.Keys);
            && KnownFirst(code, phis, sizeOf, countOf).Keys !! Derivations(code).Keys
            && KnownFirst(code, phis, sizeOf, countOf).Keys + Derivations(code).Keys == pointers
  {
    forall v ensures var code, phis := Code(p, p.blocks.Keys), PointerPhis(p, pointers, p.blocks.Keys);
                     && !(v in KnownFirst(code, phis, sizeOf, countOf) && v in Derivations(code))
                     && (v in KnownFirst(code, phis, sizeOf, countOf) || v in Derivations(code) <==> v in pointers)
    {
      OneSource(ty, pointers, p, v);
    }
  }

  lemma PhiOperandsArePointers(ty: Types, pointers: set<Value>, p: Program, info: Infos, edges: map<Value, Edges>)
    requires Raw(ty, pointers, p) && info.Keys == pointers
    requires var phis := PointerPhis(p, pointers, p.blocks.Keys);
             edges.Keys == phis.Keys && forall x :: x in phis ==> Lists(phis[x], edges[x])
    ensures forall x :: x in edges ==> Consistent(edges[x]) && forall e :: e in edges[x] ==> e.0 in info
  {
    var phis := PointerPhis(p, pointers, p.blocks.Keys);
    forall x | x in edges ensures Consistent(edges[x]) && forall e :: e in edges[x] ==> e.0 in info {
      ListsConsistent(phis[x], edges[x]);
      forall e | e in edges[x] ensures e.0 in info { IncomingIsPointer(ty, pointers, p, x, e.1); }
    }
  }

  lemma SizesAreTaken(ty: Types, pointers: set<Value>, p: Program, info: Infos, edges: map<Value, Edges>,
                      sizes: map<Value, Incoming>, counts: map<Value, Incoming>)
    requires Raw(ty, pointers, p)
    requires var phis := PointerPhis(p, pointers, p.blocks.Keys);
             && edges.Keys == phis.Keys && sizes.Keys == phis.Keys && counts.Keys == phis.Keys
             && forall x :: x in phis ==>
                  Lists(phis[x], edges[x]) && TracksSize(info, edges[x], sizes[x]) && TracksCount(info, edges[x], counts[x])
    ensures AllTaken(info, PointerPhis(p, pointers, p.blocks.Keys), sizes, counts)
  {
    var phis := PointerPhis(p, pointers, p.blocks.Keys);
    forall x | x in phis ensures SizesTaken(info, phis[x], sizes[x], counts[x]) {
      forall m | m in phis[x] ensures phis[x][m].Use? { IncomingIsPointer(ty, pointers, p, x, m); }
      TracksAreTaken(info, phis[x], edges[x], sizes[x], counts[x]);
    }
  }

  lemma TakenStays(info: Infos, sets: AliasSets, final: Infos, phis: map<Value, Incoming>, sizes: map<Value, Incoming>,
                   counts: map<Value, Incoming>)
    requires AllTaken(info, phis, sizes, counts) && WithAliases(info, sets, final)
    ensures AllTaken(final, phis, sizes, counts)
  {
    forall x | x in phis ensures SizesTaken(final, phis[x], sizes[x], counts[x]) {
      assert SizesTaken(info, phis[x], sizes[x], counts[x]);
    }
  }

  /** Behind the first worklist and the alias loop. */
  ghost predicate Resolved(ty: Types, pointers: set<Value>, p: Program, phis: map<Value, Incoming>, sizeOf: map<Value, Value>,
                           countOf: map<Value, Value>, rank: Rank, info: Infos, sets: AliasSets, final: Infos)
  {
    && Raw(ty, pointers, p) && phis == PointerPhis(p, pointers, p.blocks.Keys) && NamesOk(ty, pointers, p, phis.Keys, sizeOf, countOf)
    && SizesFound(p, phis, sizeOf, countOf, rank, info) && WithAliases(info, sets, final) && sets.Keys == phis.Keys
    && forall x, a :: x in sets && a in sets[x] ==> a in pointers && a !in phis
  }

  lemma MadeFound(ty: Types, pointers: set<Value>, p: Program, phis: map<Value, Incoming>, sizeOf: map<Value, Value>,
                  countOf: map<Value, Value>, rank: Rank, info: Infos, sets: AliasSets, final: Infos, i: Instr)
    requires Resolved(ty, pointers, p, phis, sizeOf, countOf, rank, info, sets, final) && i in Code(p, p.blocks.Keys)
    ensures InstrFound(final, i)
  {
    if Makes(i) {
      NotPhi(p, pointers, i);
      SizedAllocation(p, phis, sizeOf, countOf, rank, info, i);
    } else if Derives(i) {
      NotPhi(p, pointers, i);
      SizedDerived(p, phis, sizeOf, countOf, rank, info, i);
    }
  }

  /** The aliases of a pointer are pointers. */
  lemma AliasesFound(ty: Types, pointers: set<Value>, p: Program, phis: map<Value, Incoming>, sizeOf: map<Value, Value>,
                     countOf: map<Value, Value>, rank: Rank, info: Infos, sets: AliasSets, final: Infos, v: Value)
    requires Resolved(ty, pointers, p, phis, sizeOf, countOf, rank, info, sets, final) && v in final
    ensures forall a :: a in final[v].aliasSet ==> a in pointers
  {
    SizedKeys(ty, pointers, p, phis, sizeOf, countOf, rank, info);
    if v !in phis {
      OneSource(ty, pointers, p, v);
      if v in Allocations(Code(p, p.blocks.Keys)) {
        var i := AllocationFrom(Code(p, p.blocks.Keys), v);
        SizedAllocation(p, phis, sizeOf, countOf, rank, info, i);
      } else {
        var i := DerivationFrom(Code(p, p.blocks.Keys), v);
        SizedDerived(p, phis, sizeOf, countOf, rank, info, i);
      }
    }
  }

  lemma PhiIsFound(ty: Types, pointers: set<Value>, p: Program, phis: map<Value, Incoming>, sizeOf: map<Value, Value>,
                   countOf: map<Value, Value>, rank: Rank, info: Infos, sets: AliasSets, final: Infos, x: Value)
    requires Resolved(ty, pointers, p, phis, sizeOf, countOf, rank, info, sets, final) && x in phis
    ensures PhiFound(sizeOf, countOf, final, x)
  {
    SizedPhi(p, phis, sizeOf, countOf, rank, info, x);
  }

  lemma ValueIsFound(ty: Types, pointers: set<Value>, p: Program, phis: map<Value, Incoming>, sizeOf: map<Value, Value>,
                     countOf: map<Value, Value>, rank: Rank, info: Infos, sets: AliasSets, final: Infos, v: Value)
    requires Resolved(ty, pointers, p, phis, sizeOf, countOf, rank, info, sets, final) && v in final
    ensures ValueFound(ty, pointers, final, v)
  {
    SizedFits(ty, pointers, p, phis, sizeOf, countOf, rank, info, v);
    AliasesFound(ty, pointers, p, phis, sizeOf, countOf, rank, info, sets, final, v);
  }

  /** Sizes found and aliases resolved: everything is there. */
  lemma AllFound(ty: Types, pointers: set<Value>, p: Program, phis: map<Value, Incoming>, sizeOf: map<Value, Value>,
                 countOf: map<Value, Value>, rank: Rank, info: Infos, sets: AliasSets, final: Infos)
    requires Resolved(ty, pointers, p, phis, sizeOf, countOf, rank, info, sets, final)
    ensures Finds(ty, pointers, p, phis, sizeOf, countOf, final)
  {
    SizedKeys(ty, pointers, p, phis, sizeOf, countOf, rank, info);
    forall x | x in phis ensures PhiFound(sizeOf, countOf, final, x) {
      PhiIsFound(ty, pointers, p, phis, sizeOf, countOf, rank, info, sets, final, x);
    }
    forall i | i in Code(p, p.blocks.Keys) ensures InstrFound(final, i) {
      MadeFound(ty, pointers, p, phis, sizeOf, countOf, rank, info, sets, final, i);
    }
    forall v | v in final ensures ValueFound(ty, pointers, final, v) {
      ValueIsFound(ty, pointers, p, phis, sizeOf, countOf, rank, info, sets, final, v);
    }
  }

  lemma InheritedIsFound(p: Program, phis: map<Value, Incoming>, sizeOf: map<Value, Value>, countOf: map<Value, Value>, rank: Rank,
                         info: Infos)
    requires OneMaker(p) && phis.Keys <= sizeOf.Keys && phis.Keys <= countOf.Keys
    requires var known, base := KnownFirst(Code(p, p.blocks.Keys), phis, sizeOf, countOf), Derivations(Code(p, p.blocks.Keys));
             && Rooted(base, known.Keys, rank) && known.Keys !! base.Keys
             && info.Keys == known.Keys + base.Keys && (forall v :: v in known ==> info[v] == known[v])
             && forall v :: v in base ==> Inherits(info[v], known[Root(base, known.Keys, rank, v)], base[v])
    ensures SizesFound(p, phis, sizeOf, countOf, rank, info)
  {
  }

  /** Allocations and the pointers derived from them. */
  method FindSizes(p: Program, ghost ty: Types, pointers: set<Value>, sizeOf: map<Value, Value>, countOf: map<Value, Value>, ghost rank: Rank)
    returns (info: Infos, phis: map<Value, Incoming>)
    requires Analysable(ty, pointers, p, sizeOf, countOf, rank)
    ensures phis == PointerPhis(p, pointers, p.blocks.Keys) && info.Keys == pointers
    ensures SizesFound(p, phis, sizeOf, countOf, rank, info)
  {
    assert InAnalysable(0);
    var known, base;
    known, base, phis := SortPointers(p, pointers);
    SourcesApart(ty, pointers, p, sizeOf, countOf);
    info := InheritSizes(known + PhiInfos(phis, sizeOf, countOf), base, rank);
    InheritedIsFound(p, phis, sizeOf, countOf, rank, info);
    SizedKeys(ty, pointers, p, phis, sizeOf, countOf, rank, info);
  }

  /** The operands of the size phis. */
  method TakeSizes(p: Program, ghost ty: Types, pointers: set<Value>, info: Infos, phis: map<Value, Incoming>)
    returns (sizes: map<Value, Incoming>, counts: map<Value, Incoming>)
    requires Raw(ty, pointers, p) && phis == PointerPhis(p, pointers, p.blocks.Keys) && info.Keys == pointers
    ensures AllTaken(info, phis, sizes, counts)
  {
    var edges := ListAllEdges(phis);
    PhiOperandsArePointers(ty, pointers, p, info, edges);
    sizes, counts := FindPhiSizes(info, edges);
    SizesAreTaken(ty, pointers, p, info, edges, sizes, counts);
  }

  lemma PhisArePointers(p: Program, pointers: set<Value>)
    requires OneMaker(p)
    ensures PointerPhis(p, pointers, p.blocks.Keys).Keys <= pointers
  {
    forall x | x in PointerPhis(p, pointers, p.blocks.Keys) ensures x in pointers { var n := PhiFrom(p, pointers, x); }
  }

  /** The aliases of the phis. */
  method FindAliases(info: Infos, phis: map<Value, Incoming>, noAlias: (Value, Value) -> bool) returns (final: Infos, ghost sets: AliasSets)
    requires SimpleCycles(FirstAliases(phis)) && phis.Keys <= info.Keys
    ensures WithAliases(info, sets, final) && sets.Keys == phis.Keys
    ensures PhiAlias.NoPhis(sets) && RootsKept(FirstAliases(phis), sets, noAlias)
    ensures AliasesResolved(phis, noAlias, final)
  {
    var aliases := new PHINodeAliases(FirstAliases(phis));
    aliases.ResolveAliases(noAlias);
    sets := aliases.aliasSets;
    final := SetAliases(info, aliases.aliasSets);
    ResolvedAliases(phis, noAlias, info, sets, final);
  }

  /** `pointerAnalysis` */
  method AnalysePointers(p: Program, ghost ty: Types, pointers: set<Value>, sizeOf: map<Value, Value>, countOf: map<Value, Value>,
                         noAlias: (Value, Value) -> bool, ghost rank: Rank)
    returns (info: Infos, phis: map<Value, Incoming>, sizes: map<Value, Incoming>, counts: map<Value, Incoming>)
    requires Analysable(ty, pointers, p, sizeOf, countOf, rank)
    ensures phis == PointerPhis(p, pointers, p.blocks.Keys)
    ensures Finds(ty, pointers, p, phis, sizeOf, countOf, info) && AllTaken(info, phis, sizes, counts)
    ensures AliasesResolved(phis, noAlias, info)
  {
    var found;
    found, phis := FindSizes(p, ty, pointers, sizeOf, countOf, rank);
    sizes, counts := TakeSizes(p, ty, pointers, found, phis);
    PhisArePointers(p, pointers);
    assert InAnalysable(0);
    ghost var sets;
    info, sets := FindAliases(found, phis, noAlias);
    forall x, a | x in sets && a in sets[x] ensures a in pointers && a !in phis {
      ResolvedArePointers(ty, pointers, p, sets, noAlias, x, a);
    }
    TakenStays(found, sets, info, phis, sizes, counts);
    AllFound(ty, pointers, p, phis, sizeOf, countOf, rank, found, sets, info);
  }

  // ----- the size phis in place -----

  predicate OneToOne(names: map<Value, Value>) {
    forall x, y :: x in names && y in names && names[x] == names[y] ==> x == y
  }

  /** New phis under their new names. */
  function Named(xs: set<Value>, names: map<Value, Value>, incs: map<Value, Incoming>): map<Value, Incoming>
    requires OneToOne(names)
  {
    map x | x in xs && x in names && x in incs :: names[x] := incs[x]
  }

  lemma NamedAt(xs: set<Value>, names: map<Value, Value>, incs: map<Value, Incoming>, x: Value)
    requires OneToOne(names) && x in xs && x in names && x in incs
    ensures names[x] in Named(xs, names, incs) && Named(xs, names, incs)[names[x]] == incs[x]
  {
  }

  lemma NamedFrom(xs: set<Value>, names: map<Value, Value>, incs: map<Value, Incoming>, y: Value) returns (x: Value)
    requires OneToOne(names) && y in Named(xs, names, incs)
    ensures x in xs && x in names && x in incs && y == names[x] && Named(xs, names, incs)[y] == incs[x]
  {
    x :| x in xs && x in names && x in incs && y == names[x];
  }

  /** Names and operands of the size and of the count phis. */
  datatype SizePhis = SizePhis(sizeOf: map<Value, Value>, countOf: map<Value, Value>,
                               sizes: map<Value, Incoming>, counts: map<Value, Incoming>)
  {
    predicate Ok() {
      OneToOne(sizeOf) && OneToOne(countOf)
    }

    function Beside(xs: set<Value>): map<Value, Incoming>
      requires Ok()
    {
      Named(xs, sizeOf, sizes) + Named(xs, countOf, counts)
    }
  }

  function WithSizes(b: Block, sp: SizePhis): Block
    requires sp.Ok()
  {
    b.(phis := b.phis + sp.Beside(b.phis.Keys))
  }

  function AddSizePhis(p: Program, sp: SizePhis): Program
    requires sp.Ok()
  {
    p.(blocks := map n | n in p.blocks :: WithSizes(p.blocks[n], sp))
  }

  /** Names of the function and new names do not meet. */
  ghost predicate Fresh(p: Program, phis: map<Value, Incoming>, sp: SizePhis) {
    && sp.Ok() && sp.sizeOf.Keys == phis.Keys && sp.countOf.Keys == phis.Keys && sp.sizes.Keys == phis.Keys && sp.counts.Keys == phis.Keys
    && (forall x, y :: x in phis && y in phis ==> sp.sizeOf[x] != sp.countOf[y])
    && forall x :: x in phis ==> NewIn(p, sp.sizeOf[x]) && NewIn(p, sp.countOf[x])
  }

  ghost predicate NewIn(p: Program, v: Value) {
    forall n :: n in p.blocks ==> v !in p.blocks[n].phis && v !in Dsts(p.blocks[n].body)
  }

  lemma BesideFrom(sp: SizePhis, xs: set<Value>, y: Value) returns (x: Value)
    requires sp.Ok() && y in sp.Beside(xs)
    ensures x in xs && x in sp.sizeOf.Keys + sp.countOf.Keys && SizePhiOf(sp, x, y, sp.Beside(xs)[y])
  {
    if y in Named(xs, sp.countOf, sp.counts) {
      x := NamedFrom(xs, sp.countOf, sp.counts, y);
    } else {
      x := NamedFrom(xs, sp.sizeOf, sp.sizes, y);
    }
  }

  /** `y` with operands `inc` is the size phi or the count phi of `x`. */
  ghost predicate SizePhiOf(sp: SizePhis, x: Value, y: Value, inc: Incoming) {
    || (x in sp.sizeOf && x in sp.sizes && y == sp.sizeOf[x] && inc == sp.sizes[x])
    || (x in sp.countOf && x in sp.counts && y == sp.countOf[x] && inc == sp.counts[x])
  }

  lemma BesideIsNew(p: Program, phis: map<Value, Incoming>, sp: SizePhis, n: Label, y: Value) returns (x: Value)
    requires Fresh(p, phis, sp) && n in p.blocks && y in sp.Beside(p.blocks[n].phis.Keys)
    ensures x in p.blocks[n].phis && x in phis && SizePhiOf(sp, x, y, sp.Beside(p.blocks[n].phis.Keys)[y])
    ensures y !in p.blocks[n].phis
  {
    x := BesideFrom(sp, p.blocks[n].phis.Keys, y);
    SizePhiIsNew(p, phis, sp, x, y, sp.Beside(p.blocks[n].phis.Keys)[y], n);
  }

  lemma SizePhiIsNew(p: Program, phis: map<Value, Incoming>, sp: SizePhis, x: Value, y: Value, inc: Incoming, n: Label)
    requires Fresh(p, phis, sp) && SizePhiOf(sp, x, y, inc) && n in p.blocks
    ensures x in phis && y !in p.blocks[n].phis && y !in Dsts(p.blocks[n].body)
  {
  }

  /** The phis of a block beside which others are put. */
  lemma WithSizesAt(b: Block, sp: SizePhis, y: Value)
    requires sp.Ok()
    ensures var q, beside := WithSizes(b, sp).phis, sp.Beside(b.phis.Keys);
            && (y in q <==> y in b.phis || y in beside)
            && (y in beside ==> q[y] == beside[y]) && (y in b.phis && y !in beside ==> q[y] == b.phis[y])
  {
  }

  /** The phis of a block with size phis: its own, and the size and the count phi of each pointer phi. */
  lemma PhiOfThree(p: Program, phis: map<Value, Incoming>, sp: SizePhis, n: Label, y: Value) returns (x: Value)
    requires Fresh(p, phis, sp) && n in p.blocks && y in WithSizes(p.blocks[n], sp).phis
    ensures var q := WithSizes(p.blocks[n], sp).phis;
            if y in p.blocks[n].phis then q[y] == p.blocks[n].phis[y]
            else x in p.blocks[n].phis && x in phis && SizePhiOf(sp, x, y, q[y])
  {
    WithSizesAt(p.blocks[n], sp, y);
    x := y;
    if y in sp.Beside(p.blocks[n].phis.Keys) { x := BesideIsNew(p, phis, sp, n, y); }
  }

  lemma OwnPhi(p: Program, phis: map<Value, Incoming>, sp: SizePhis, n: Label, x: Value)
    requires Fresh(p, phis, sp) && n in p.blocks && x in p.blocks[n].phis
    ensures x in WithSizes(p.blocks[n], sp).phis && WithSizes(p.blocks[n], sp).phis[x] == p.blocks[n].phis[x]
  {
    WithSizesAt(p.blocks[n], sp, x);
    if x in sp.Beside(p.blocks[n].phis.Keys) { var y := BesideIsNew(p, phis, sp, n, x); }
  }

  lemma BesideAt(sp: SizePhis, xs: set<Value>, x: Value)
    requires sp.Ok() && x in xs && x in sp.sizeOf && x in sp.countOf && x in sp.sizes && x in sp.counts
    requires forall y :: y in xs && y in sp.countOf ==> sp.sizeOf[x] != sp.countOf[y]
    ensures var q := sp.Beside(xs);
            && sp.sizeOf[x] in q && q[sp.sizeOf[x]] == sp.sizes[x] && sp.countOf[x] in q && q[sp.countOf[x]] == sp.counts[x]
  {
    NamedAt(xs, sp.sizeOf, sp.sizes, x);
    NamedAt(xs, sp.countOf, sp.counts, x);
    assert sp.sizeOf[x] !in Named(xs, sp.countOf, sp.counts);
  }

  lemma SizePhisAt(p: Program, phis: map<Value, Incoming>, sp: SizePhis, n: Label, x: Value)
    requires Fresh(p, phis, sp) && n in p.blocks && x in p.blocks[n].phis && x in phis
    ensures var q := WithSizes(p.blocks[n], sp).phis;
            && sp.sizeOf[x] in q && q[sp.sizeOf[x]] == sp.sizes[x] && sp.countOf[x] in q && q[sp.countOf[x]] == sp.counts[x]
  {
    BesideAt(sp, p.blocks[n].phis.Keys, x);
  }

  // ----- it is typed -----

  lemma FitsIsScalar(ps: Pointers, ty: Types, pointers: set<Value>, width: nat, o: Operand)
    requires ps.info.Keys == pointers && Fits(ty, pointers, width, o)
    ensures ScalarFits(ps, ty, width, o)
  {
  }

  lemma InstrTyped(ps: Pointers, ty: Types, pointers: set<Value>, i: Instr)
    requires ps.info.Keys == pointers && i.dst.Some? && InstrRaw(ty, pointers, i.dst.value, i.op, i.args) && InstrFound(ps.info, i)
    ensures ResultTyped(ps, ty, i.dst.value, i.op, i.args)
  {
  }

  /** Everything known of one pointer phi and its size phis. */
  ghost predicate PhiReady(ty: Types, pointers: set<Value>, info: Infos, inc: Incoming, sp: SizePhis, x: Value) {
    && PhiFound(sp.sizeOf, sp.countOf, info, x) && x in sp.sizes && x in sp.counts
    && SizesTaken(info, inc, sp.sizes[x], sp.counts[x])
    && sp.sizeOf[x] !in pointers && sp.countOf[x] !in pointers && ty.Width(sp.sizeOf[x]) == 64 && ty.Width(sp.countOf[x]) == 64
    && forall m :: m in inc ==>
         inc[m].Use? && inc[m].v in info && Fits64(ty, pointers, info[inc[m].v]) && ty.OriginOf(x).Derived?
  }

  lemma PointerPhiTyped(ps: Pointers, ty: Types, pointers: set<Value>, phis: map<Value, Incoming>, sp: SizePhis, x: Value, m: Label)
    requires ps.info.Keys == pointers && x in phis && m in phis[x] && PhiReady(ty, pointers, ps.info, phis[x], sp, x)
    requires sp.sizeOf[x] in phis && phis[sp.sizeOf[x]] == sp.sizes[x] && sp.countOf[x] in phis && phis[sp.countOf[x]] == sp.counts[x]
    ensures PhiTyped(ps, ty, phis, x, m)
  {
  }

  lemma SizePhiTyped(ps: Pointers, ty: Types, pointers: set<Value>, phis: map<Value, Incoming>, sp: SizePhis, x: Value, inc: Incoming,
                     y: Value, m: Label)
    requires ps.info.Keys == pointers && PhiReady(ty, pointers, ps.info, inc, sp, x)
    requires y in phis && m in phis[y] && SizePhiOf(sp, x, y, phis[y])
    ensures PhiTyped(ps, ty, phis, y, m)
  {
    FitsIsScalar(ps, ty, pointers, 64, phis[y][m]);
  }

  /** What is known of the analysed function, all together. */
  ghost predicate Ready(ty: Types, pointers: set<Value>, p: Program, phis: map<Value, Incoming>, sp: SizePhis, info: Infos) {
    && Raw(ty, pointers, p) && phis == PointerPhis(p, pointers, p.blocks.Keys) && info.Keys == pointers && sp.Ok()
    && forall k {:trigger InReady(k)} :: InReady(k) ==>
         && Finds(ty, pointers, p, phis, sp.sizeOf, sp.countOf, info) && AllTaken(info, phis, sp.sizes, sp.counts)
         && NamesOk(ty, pointers, p, phis.Keys, sp.sizeOf, sp.countOf) && Fresh(p, phis, sp)
  }

  /** Marks where a proof looks inside `Ready`. */
  ghost predicate InReady(k: nat) { true }

  lemma NamesAreFresh(ty: Types, pointers: set<Value>, p: Program, phis: map<Value, Incoming>, sp: SizePhis)
    requires NamesOk(ty, pointers, p, phis.Keys, sp.sizeOf, sp.countOf) && sp.sizes.Keys == phis.Keys && sp.counts.Keys == phis.Keys
    ensures Fresh(p, phis, sp)
  {
    forall x | x in phis ensures NewIn(p, sp.sizeOf[x]) && NewIn(p, sp.countOf[x]) {
      assert NewName(ty, pointers, p, sp.sizeOf[x]) && NewName(ty, pointers, p, sp.countOf[x]);
    }
  }

  lemma PhiNames(ty: Types, pointers: set<Value>, p: Program, phis: map<Value, Incoming>, sp: SizePhis, info: Infos, x: Value)
    requires Ready(ty, pointers, p, phis, sp, info) && x in phis
    ensures PhiFound(sp.sizeOf, sp.countOf, info, x) && x in sp.sizes && x in sp.counts
    ensures SizesTaken(info, phis[x], sp.sizes[x], sp.counts[x])
    ensures sp.sizeOf[x] !in pointers && sp.countOf[x] !in pointers && ty.Width(sp.sizeOf[x]) == 64 && ty.Width(sp.countOf[x]) == 64
  {
    assert InReady(0) && InFinds(0);
    assert NewName(ty, pointers, p, sp.sizeOf[x]) && NewName(ty, pointers, p, sp.countOf[x]);
  }

  lemma TakenFits(ty: Types, pointers: set<Value>, p: Program, phis: map<Value, Incoming>, sp: SizePhis, info: Infos, x: Value, m: Label)
    requires Ready(ty, pointers, p, phis, sp, info) && x in phis && m in phis[x]
    ensures phis[x][m].Use? && phis[x][m].v in info && Fits64(ty, pointers, info[phis[x][m].v])
  {
    assert InReady(0) && InFinds(0);
    IncomingIsPointer(ty, pointers, p, x, m);
    assert ValueFound(ty, pointers, info, phis[x][m].v);
  }

  lemma PhiIsReady(ty: Types, pointers: set<Value>, p: Program, phis: map<Value, Incoming>, sp: SizePhis, info: Infos, n: Label, x: Value)
    requires Ready(ty, pointers, p, phis, sp, info) && n in p.blocks && x in p.blocks[n].phis && x in pointers
    ensures x in phis && phis[x] == p.blocks[n].phis[x] && PhiReady(ty, pointers, info, phis[x], sp, x)
  {
    PhiAt(p, pointers, n, x);
    PhiNames(ty, pointers, p, phis, sp, info, x);
    PhiDerived(ty, pointers, p, n, x);
    forall m | m in phis[x] ensures phis[x][m].Use? && phis[x][m].v in info && Fits64(ty, pointers, info[phis[x][m].v]) {
      TakenFits(ty, pointers, p, phis, sp, info, x, m);
    }
  }

  lemma NewPhiTyped(ps: Pointers, ty: Types, pointers: set<Value>, p: Program, phis: map<Value, Incoming>, sp: SizePhis, n: Label,
                    q: map<Value, Incoming>, x: Value, y: Value, m: Label)
    requires Ready(ty, pointers, p, phis, sp, ps.info) && n in p.blocks && x in p.blocks[n].phis && x in phis
    requires y in q && m in q[y] && SizePhiOf(sp, x, y, q[y])
    ensures PhiTyped(ps, ty, q, y, m)
  {
    PhisArePointers(p, pointers);
    PhiIsReady(ty, pointers, p, phis, sp, ps.info, n, x);
    SizePhiTyped(ps, ty, pointers, q, sp, x, phis[x], y, m);
  }

  lemma OwnPhiTyped(ps: Pointers, ty: Types, pointers: set<Value>, p: Program, phis: map<Value, Incoming>, sp: SizePhis, n: Label,
                    x: Value, m: Label)
    requires Ready(ty, pointers, p, phis, sp, ps.info) && n in p.blocks && x in p.blocks[n].phis && m in p.blocks[n].phis[x]
    requires x in WithSizes(p.blocks[n], sp).phis && WithSizes(p.blocks[n], sp).phis[x] == p.blocks[n].phis[x]
    ensures PhiTyped(ps, ty, WithSizes(p.blocks[n], sp).phis, x, m)
  {
    if x in pointers {
      ReadyIsFresh(ty, pointers, p, phis, sp, ps.info);
      PhiIsReady(ty, pointers, p, phis, sp, ps.info, n, x);
      SizePhisAt(p, phis, sp, n, x);
      PointerPhiTyped(ps, ty, pointers, WithSizes(p.blocks[n], sp).phis, sp, x, m);
    } else {
      ScalarPhi(ps, ty, pointers, p, n, x, m);
    }
  }

  /** All phis of a block of the result. */
  lemma PhisAreTyped(ps: Pointers, ty: Types, pointers: set<Value>, p: Program, phis: map<Value, Incoming>, sp: SizePhis, n: Label,
                     y: Value, m: Label)
    requires Ready(ty, pointers, p, phis, sp, ps.info) && n in p.blocks
    requires y in WithSizes(p.blocks[n], sp).phis && m in WithSizes(p.blocks[n], sp).phis[y]
    ensures PhiTyped(ps, ty, WithSizes(p.blocks[n], sp).phis, y, m)
  {
    ReadyIsFresh(ty, pointers, p, phis, sp, ps.info);
    var x := PhiOfThree(p, phis, sp, n, y);
    if y !in p.blocks[n].phis {
      NewPhiTyped(ps, ty, pointers, p, phis, sp, n, WithSizes(p.blocks[n], sp).phis, x, y, m);
    } else {
      OwnPhiTyped(ps, ty, pointers, p, phis, sp, n, y, m);
    }
  }

  lemma ScalarPhi(ps: Pointers, ty: Types, pointers: set<Value>, p: Program, n: Label, y: Value, m: Label)
    requires Raw(ty, pointers, p) && ps.info.Keys == pointers && n in p.blocks && y in p.blocks[n].phis && m in p.blocks[n].phis[y]
    requires y !in pointers
    ensures ScalarFits(ps, ty, ty.Width(y), p.blocks[n].phis[y][m])
  {
    assert InRaw(0);
    assert BlockRaw(ty, pointers, p.blocks[n]);
    assert PhiRaw(ty, pointers, y, p.blocks[n].phis[y][m]);
    FitsIsScalar(ps, ty, pointers, ty.Width(y), p.blocks[n].phis[y][m]);
  }

  lemma CodeTyped(ps: Pointers, ty: Types, pointers: set<Value>, p: Program, phis: map<Value, Incoming>, sp: SizePhis, n: Label, i: Instr)
    requires Ready(ty, pointers, p, phis, sp, ps.info) && n in p.blocks && i in p.blocks[n].body && i.dst.Some?
    ensures ResultTyped(ps, ty, i.dst.value, i.op, i.args)
  {
    assert InReady(0);
    assert InFinds(0);
    assert i in Code(p, p.blocks.Keys);
    MadeIsPointer(ty, pointers, p, i);
    InstrTyped(ps, ty, pointers, i);
  }

  lemma OriginsAreFit(ps: Pointers, ty: Types, pointers: set<Value>, p: Program, phis: map<Value, Incoming>, sp: SizePhis)
    requires Ready(ty, pointers, p, phis, sp, ps.info)
    ensures OriginsFit(ps, ty) && KnownAliases(ps)
  {
    assert InReady(0);
    assert InFinds(0);
    forall v | v in ps.info ensures OriginFits(ps, ty, v) && forall a :: a in ps.info[v].aliasSet ==> a in ps.info {
      assert ValueFound(ty, pointers, ps.info, v);
      OriginIsFit(ps, ty, pointers, p, phis, sp, v);
    }
  }

  lemma OriginIsFit(ps: Pointers, ty: Types, pointers: set<Value>, p: Program, phis: map<Value, Incoming>, sp: SizePhis, v: Value)
    requires Ready(ty, pointers, p, phis, sp, ps.info) && v in ps.info
    ensures OriginFits(ps, ty, v)
  {
    assert InReady(0);
    assert InFinds(0);
    if v in phis {
      var n := PhiFrom(p, pointers, v);
      PhiIsReady(ty, pointers, p, phis, sp, ps.info, n, v);
      PhiDerived(ty, pointers, p, n, v);
    } else {
      var i := MakerOf(ty, pointers, p, v);
      MadeIsPointer(ty, pointers, p, i);
      assert InstrFound(ps.info, i);
    }
  }

  lemma PhiDerived(ty: Types, pointers: set<Value>, p: Program, n: Label, x: Value)
    requires Raw(ty, pointers, p) && n in p.blocks && x in p.blocks[n].phis && x in pointers
    ensures ty.OriginOf(x).Derived?
  {
    assert InRaw(0);
    assert BlockRaw(ty, pointers, p.blocks[n]);
  }

  /** The instruction that makes a pointer which is no phi. */
  lemma MakerOf(ty: Types, pointers: set<Value>, p: Program, v: Value) returns (i: Instr)
    requires Raw(ty, pointers, p) && v in pointers && v !in PointerPhis(p, pointers, p.blocks.Keys)
    ensures i in Code(p, p.blocks.Keys) && i.dst == Some(v)
  {
    assert InRaw(0);
    if n :| n in p.blocks && v in p.blocks[n].phis {
      PhiAt(p, pointers, n, v);
    }
    i :| i in Code(p, p.blocks.Keys) && i.dst == Some(v);
  }

  // ----- the function with size phis -----

  /** Everything a block has to be but for the order of its sizes, see `SizesFirst`. */
  ghost predicate NearlyTyped(ps: Pointers, ty: Types, b: Block) {
    && (forall i :: i in b.body && i.dst.Some? ==> ResultTyped(ps, ty, i.dst.value, i.op, i.args))
    && (forall x, m :: x in b.phis && m in b.phis[x] ==> PhiTyped(ps, ty, b.phis, x, m))
    && b.phis.Keys !! Dsts(b.body) && Once(b.body)
  }

  lemma WithSizesTyped(ps: Pointers, ty: Types, pointers: set<Value>, p: Program, phis: map<Value, Incoming>, sp: SizePhis, n: Label)
    requires Ready(ty, pointers, p, phis, sp, ps.info) && n in p.blocks
    ensures NearlyTyped(ps, ty, WithSizes(p.blocks[n], sp))
  {
    var b, q := p.blocks[n], WithSizes(p.blocks[n], sp);
    forall i | i in q.body && i.dst.Some? ensures ResultTyped(ps, ty, i.dst.value, i.op, i.args) {
      CodeTyped(ps, ty, pointers, p, phis, sp, n, i);
    }
    forall x, m | x in q.phis && m in q.phis[x] ensures PhiTyped(ps, ty, q.phis, x, m) {
      PhisAreTyped(ps, ty, pointers, p, phis, sp, n, x, m);
    }
    NamesApart(ty, pointers, p, phis, sp, ps.info, n);
  }

  lemma NamesApart(ty: Types, pointers: set<Value>, p: Program, phis: map<Value, Incoming>, sp: SizePhis, info: Infos, n: Label)
    requires Ready(ty, pointers, p, phis, sp, info) && n in p.blocks
    ensures WithSizes(p.blocks[n], sp).phis.Keys !! Dsts(p.blocks[n].body) && Once(p.blocks[n].body)
  {
    assert InReady(0) && InRaw(0);
    assert BlockRaw(ty, pointers, p.blocks[n]);
    forall y | y in WithSizes(p.blocks[n], sp).phis ensures y !in Dsts(p.blocks[n].body) {
      var x := PhiOfThree(p, phis, sp, n, y);
      if y !in p.blocks[n].phis { SizePhiIsNew(p, phis, sp, x, y, WithSizes(p.blocks[n], sp).phis[y], n); }
    }
  }

  /** A size phi has its operands where its pointer phi has them. */
  lemma SizePhiKeys(ty: Types, pointers: set<Value>, p: Program, phis: map<Value, Incoming>, sp: SizePhis, info: Infos, n: Label, y: Value)
    returns (x: Value)
    requires Ready(ty, pointers, p, phis, sp, info) && n in p.blocks && y in WithSizes(p.blocks[n], sp).phis
    ensures x in p.blocks[n].phis && WithSizes(p.blocks[n], sp).phis[y].Keys == p.blocks[n].phis[x].Keys
    ensures y == x || NewName(ty, pointers, p, y)
  {
    ReadyIsFresh(ty, pointers, p, phis, sp, info);
    x := PhiOfThree(p, phis, sp, n, y);
    if y in p.blocks[n].phis {
      x := y;
    } else {
      PhisArePointers(p, pointers);
      PhiAt(p, pointers, n, x);
      OperandsAt(ty, pointers, p, phis, sp, info, x, y, WithSizes(p.blocks[n], sp).phis[y]);
    }
  }

  lemma ReadyIsFresh(ty: Types, pointers: set<Value>, p: Program, phis: map<Value, Incoming>, sp: SizePhis, info: Infos)
    requires Ready(ty, pointers, p, phis, sp, info)
    ensures Fresh(p, phis, sp)
  {
    assert InReady(0);
  }

  lemma OperandsAt(ty: Types, pointers: set<Value>, p: Program, phis: map<Value, Incoming>, sp: SizePhis, info: Infos, x: Value,
                   y: Value, inc: Incoming)
    requires Ready(ty, pointers, p, phis, sp, info) && x in phis && SizePhiOf(sp, x, y, inc)
    ensures inc.Keys == phis[x].Keys && NewName(ty, pointers, p, y)
  {
    assert InReady(0);
    assert SizesTaken(info, phis[x], sp.sizes[x], sp.counts[x]);
    assert NewName(ty, pointers, p, sp.sizeOf[x]) && NewName(ty, pointers, p, sp.countOf[x]);
  }

  lemma BlockWithSizesOk(ty: Types, pointers: set<Value>, p: Program, phis: map<Value, Incoming>, sp: SizePhis, info: Infos, n: Label)
    requires Ready(ty, pointers, p, phis, sp, info) && ProgramOk(p) && n in p.blocks
    ensures BlockOk(p, WithSizes(p.blocks[n], sp))
  {
    assert BlockOk(p, p.blocks[n]);
    forall y | y in WithSizes(p.blocks[n], sp).phis ensures y.Src? && WithSizes(p.blocks[n], sp).phis[y].Keys <= p.blocks.Keys {
      var x := SizePhiKeys(ty, pointers, p, phis, sp, info, n, y);
    }
  }

  lemma AddedAt(p: Program, sp: SizePhis, n: Label)
    requires sp.Ok() && n in p.blocks
    ensures var q := AddSizePhis(p, sp);
            q.blocks.Keys == p.blocks.Keys && q.blocks[n] == WithSizes(p.blocks[n], sp) && q.entry == p.entry && q.args == p.args
  {
  }

  lemma SameLabelsOk(p: Program, q: Program, b: Block)
    requires BlockOk(p, b) && q.blocks.Keys == p.blocks.Keys && q.entry == p.entry
    ensures BlockOk(q, b)
  {
  }

  lemma PhisWithSizes(ty: Types, pointers: set<Value>, p: Program, phis: map<Value, Incoming>, sp: SizePhis, info: Infos,
                      m: Label, n: Label, y: Value)
    requires Ready(ty, pointers, p, phis, sp, info) && ProgramOk(p) && PhisExact(p)
    requires n in p.blocks && y in WithSizes(p.blocks[n], sp).phis
    ensures m in WithSizes(p.blocks[n], sp).phis[y] <==> m in p.blocks && n in TermTargets(p.blocks[m].term)
  {
    var x := SizePhiKeys(ty, pointers, p, phis, sp, info, n, y);
    EdgesOfPhi(p, m, n, x);
  }

  lemma EdgesOfPhi(p: Program, m: Label, n: Label, x: Value)
    requires ProgramOk(p) && PhisExact(p) && n in p.blocks && x in p.blocks[n].phis
    ensures m in p.blocks[n].phis[x] <==> m in p.blocks && n in TermTargets(p.blocks[m].term)
  {
  }

  lemma WithSizesOk(ty: Types, pointers: set<Value>, p: Program, phis: map<Value, Incoming>, sp: SizePhis, info: Infos)
    requires Ready(ty, pointers, p, phis, sp, info) && ProgramOk(p) && PhisExact(p)
    ensures ProgramOk(AddSizePhis(p, sp)) && PhisExact(AddSizePhis(p, sp))
  {
    var q := AddSizePhis(p, sp);
    AddedAt(p, sp, p.entry);
    NoneWithoutPhis(p.blocks[p.entry], sp);
    forall n | n in q.blocks ensures n.Orig? && BlockOk(q, q.blocks[n]) {
      AddedAt(p, sp, n);
      BlockWithSizesOk(ty, pointers, p, phis, sp, info, n);
      SameLabelsOk(p, q, WithSizes(p.blocks[n], sp));
    }
    forall m, n, y | n in q.blocks && y in q.blocks[n].phis
      ensures m in q.blocks[n].phis[y] <==> m in q.blocks && n in TermTargets(q.blocks[m].term)
    {
      AddedAt(p, sp, n);
      PhisWithSizes(ty, pointers, p, phis, sp, info, m, n, y);
    }
    FromEdges(q);
  }

  lemma FromEdges(q: Program)
    requires forall m, n, y :: n in q.blocks && y in q.blocks[n].phis ==>
               (m in q.blocks[n].phis[y] <==> m in q.blocks && n in TermTargets(q.blocks[m].term))
    ensures PhisComplete(q) && PhisExact(q)
  {
  }

  lemma NoneWithoutPhis(b: Block, sp: SizePhis)
    requires sp.Ok() && b.phis == map[]
    ensures WithSizes(b, sp).phis == map[]
  {
    forall y ensures y !in WithSizes(b, sp).phis {
      WithSizesAt(b, sp, y);
      if y in sp.Beside(b.phis.Keys) { var x := BesideFrom(sp, b.phis.Keys, y); }
    }
  }
}
