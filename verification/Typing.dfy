/**
  What holds of every value that is live while the function runs: scalars fit their width,
  each pointer points into an allocation of exactly the size the analysis recorded for it, and
  two allocations that are both named are different ones.
 */
module Typing {
  import opened Records
  import opened IR
  import opened Pointers
  import opened Paths
  import opened Runs
  import opened Cfg
  import opened UseDef
  import opened Function
  import opened Closure
  import opened Simulation
  import opened Rewriting
  import opened Emission

  // ----- what is assumed of the function -----

  function SizeUses(ps: Pointers, v: Value): set<Value> {
    if v in ps.info then OperandUses(ps.info[v].typeSizeInBits) + OperandUses(ps.info[v].numElements) else {}
  }

  predicate SameSizes(ps: Pointers, a: Value, b: Value) {
    && a in ps.info && b in ps.info
    && ps.info[a].typeSizeInBits == ps.info[b].typeSizeInBits && ps.info[a].numElements == ps.info[b].numElements
  }

  predicate HasSizes(ps: Pointers, v: Value, size: Operand, count: Operand) {
    v in ps.info && ps.info[v].typeSizeInBits == size && ps.info[v].numElements == count
  }

  /** The kind of the result of an instruction; a derived pointer inherits the sizes of its base. */
  predicate ResultTyped(ps: Pointers, ty: Types, v: Value, op: Op, args: seq<Operand>) {
    match op
    case NewStack(elemBits, count) =>
      ty.OriginOf(v) == Stack(elemBits, count) && HasSizes(ps, v, Const(elemBits), Const(count))
    case NewHeap => ty.OriginOf(v) == Heap && |args| > 0 && HasSizes(ps, v, Const(8), args[0])
    case Offset(_) => ty.OriginOf(v) == Derived && |args| > 0 && args[0].Use? && SameSizes(ps, v, args[0].v)
    case Cast => ty.OriginOf(v) == Derived && |args| > 0 && args[0].Use? && SameSizes(ps, v, args[0].v)
    case Arith(_, width) => v !in ps.info && ty.Width(v) == width
    case Read(_, width) => v !in ps.info && ty.Width(v) == width
    case PtrEq => v !in ps.info && ty.Width(v) >= 1
    case _ => v !in ps.info
  }

  predicate ScalarFits(ps: Pointers, ty: Types, width: nat, o: Operand) {
    match o
    case Const(k) => k < Pow2(width)
    case Use(v) => v !in ps.info && ty.Width(v) == width
  }

  /** On the edge from `m` the phi named by `s` takes `t`. */
  predicate Tracks(phis: map<Value, Incoming>, m: Label, s: Operand, t: Operand) {
    s.Use? && s.v in phis && m in phis[s.v] && phis[s.v][m] == t
  }

  /** Size and count of a pointer phi are phis of the same block, taking size and count of the pointer that is taken. */
  predicate PhiTyped(ps: Pointers, ty: Types, phis: map<Value, Incoming>, x: Value, m: Label)
    requires x in phis && m in phis[x]
  {
    var o := phis[x][m];
    if x !in ps.info then ScalarFits(ps, ty, ty.Width(x), o)
    else
      && ty.OriginOf(x).Derived? && o.Use? && o.v in ps.info
      && Tracks(phis, m, ps.info[x].typeSizeInBits, ps.info[o.v].typeSizeInBits)
      && Tracks(phis, m, ps.info[x].numElements, ps.info[o.v].numElements)
  }

  /** No size is defined behind its pointer. */
  predicate SizesFirst(ps: Pointers, body: seq<Instr>) {
    body != [] ==>
      && (body[0].dst.Some? ==> SizeUses(ps, body[0].dst.value) !! Dsts(body))
      && SizesFirst(ps, body[1..])
  }

  predicate BlockTyped(ps: Pointers, ty: Types, b: Block) {
    && (forall i :: i in b.body && i.dst.Some? ==> ResultTyped(ps, ty, i.dst.value, i.op, i.args))
    && (forall x, m :: x in b.phis && m in b.phis[x] ==> PhiTyped(ps, ty, b.phis, x, m))
    && SizesFirst(ps, b.body) && b.phis.Keys !! Dsts(b.body)
  }

  /** The sizes recorded for an allocation are the operands of the instruction that makes it; others are not their own aliases. */
  predicate OriginFits(ps: Pointers, ty: Types, v: Value)
    requires v in ps.info
  {
    match ty.OriginOf(v)
    case Stack(elemBits, count) => HasSizes(ps, v, Const(elemBits), Const(count))
    case Heap => ps.info[v].typeSizeInBits == Const(8)
    case Derived => v !in ps.info[v].aliasSet
  }

  ghost predicate OriginsFit(ps: Pointers, ty: Types) {
    forall v :: v in ps.info ==> OriginFits(ps, ty, v)
  }

  ghost predicate Typed(ps: Pointers, ty: Types, p: Program) {
    && (forall n :: n in p.blocks ==> BlockTyped(ps, ty, p.blocks[n]))
    && p.args !! ps.info.Keys && OriginsFit(ps, ty)
  }

  // ----- what holds while it runs -----

  /** Which instruction made each allocation of the run. */
  type Owner = map<nat, Value>

  predicate WorldOk(owner: Owner, w: World) {
    (forall a :: a in w.cells ==> a < w.next) && forall a :: a in owner ==> a < w.next
  }

  predicate Sized(env: Env, w: World, d: Data, size: Operand, count: Operand) {
    Points(w, d) && |w.cells[d.alloc]| == Product(IntOf(Eval(env, size)), IntOf(Eval(env, count)))
  }

  /** A pointer to an allocation as it was made by `v`. */
  predicate Owns(owner: Owner, d: Data, v: Value) {
    d.Ptr? && d.off == 0 && d.alloc in owner && owner[d.alloc] == v
  }

  predicate Good(ps: Pointers, ty: Types, owner: Owner, env: Env, w: World, v: Value) {
    var d := Get(env, v);
    if v !in ps.info then d.Int? && d.i < Pow2(ty.Width(v))
    else
      && Sized(env, w, d, ps.info[v].typeSizeInBits, ps.info[v].numElements)
      && (!ty.OriginOf(v).Derived? ==> Owns(owner, d, v))
  }

  ghost predicate AllGood(ps: Pointers, ty: Types, owner: Owner, env: Env, w: World, vs: set<Value>) {
    forall v :: v in vs ==> Good(ps, ty, owner, env, w, v)
  }

  // ----- one instruction -----

  /** Allocations stay and keep their sizes. */
  predicate Keeps(w: World, u: World) {
    w.next <= u.next && forall a :: a in w.cells ==> a in u.cells && |u.cells[a]| == |w.cells[a]|
  }

  function Owned(owner: Owner, i: Instr, w: World): Owner {
    if i.op.Allocates() && i.dst.Some? then owner[w.next := i.dst.value] else owner
  }

  lemma ExecKeeps(sem: Sem, op: Op, args: seq<Data>, owner: Owner, w: World)
    requires WorldOk(owner, w) && !op.CallsRuntime()
    ensures var u := Exec(sem, op, args, w).1;
            Keeps(w, u) && WorldOk(owner, u) && (op.Allocates() ==> u.next == w.next + 1)
  {
  }

  /** What is not touched by an instruction stays good. */
  lemma StaysGood(ps: Pointers, ty: Types, owner: Owner, more: Owner, env: Env, w: World, u: World, d: Option<Value>, x: Data, v: Value)
    requires Good(ps, ty, owner, env, w, v) && Keeps(w, u)
    requires forall a :: a in owner ==> a in more && more[a] == owner[a]
    requires d.Some? ==> v != d.value && d.value !in SizeUses(ps, v)
    ensures Good(ps, ty, more, Assign(env, d, x), u, v)
  {
    if v in ps.info {
      EvalKept(env, d, x, ps.info[v].typeSizeInBits);
      EvalKept(env, d, x, ps.info[v].numElements);
    }
  }

  lemma EvalKept(env: Env, d: Option<Value>, x: Data, o: Operand)
    requires d.Some? ==> d.value !in OperandUses(o)
    ensures Eval(Assign(env, d, x), o) == Eval(env, o)
  {
  }

  lemma FirstNeeded(ps: Pointers, os: seq<Operand>)
    requires ps.Acyclic() && |os| > 0 && os[0].Use?
    ensures os[0].v in ArgNeeds(ps, os)
  {
    OperandsNeeded(ps, os, 0);
  }

  /** The result of an instruction is good. */
  lemma ResultGood(sem: Sem, ps: Pointers, ty: Types, i: Instr, owner: Owner, env: Env, w: World)
    requires ps.Acyclic() && WorldOk(owner, w) && !i.op.CallsRuntime() && i.dst.Some?
    requires AllGood(ps, ty, owner, env, w, ArgNeeds(ps, i.args))
    requires ResultTyped(ps, ty, i.dst.value, i.op, i.args) && i.dst.value !in SizeUses(ps, i.dst.value)
    ensures var (env', w') := RunInstr(sem, i, env, w);
            Good(ps, ty, Owned(owner, i, w), env', w', i.dst.value)
  {
    var v := i.dst.value;
    var args := EvalAll(env, i.args);
    var (x, u) := Exec(sem, i.op, args, w);
    if v in ps.info {
      EvalKept(env, i.dst, x, ps.info[v].typeSizeInBits);
      EvalKept(env, i.dst, x, ps.info[v].numElements);
      match i.op
      case NewStack(elemBits, count) =>
      case NewHeap =>
      case _ => FirstNeeded(ps, i.args);
    } else {
      ScalarResult(sem, i.op, args, w, ty.Width(v));
    }
  }

  lemma ScalarResult(sem: Sem, op: Op, args: seq<Data>, w: World, width: nat)
    requires match op
             case Arith(_, n) => n == width
             case Read(_, n) => n == width
             case PtrEq => width >= 1
             case Write(_) => true
             case _ => false
    ensures Exec(sem, op, args, w).0.Int? && Exec(sem, op, args, w).0.i < Pow2(width)
  {
    assert Pow2(0) == 1;
    assert width >= 1 ==> Pow2(width) == 2 * Pow2(width - 1);
  }

  ghost predicate SizesKept(ps: Pointers, vs: set<Value>, defs: set<Value>) {
    forall v :: v in vs ==> SizeUses(ps, v) !! defs
  }

  lemma InstrGood(sem: Sem, ps: Pointers, ty: Types, i: Instr, after: set<Value>, owner: Owner, env: Env, w: World)
    requires ps.Acyclic() && WorldOk(owner, w) && !i.op.CallsRuntime()
    requires AllGood(ps, ty, owner, env, w, ArgNeeds(ps, i.args) + (after - DstSet(i)))
    requires SizesKept(ps, after - DstSet(i), DstSet(i))
    requires i.dst.Some? ==>
               ResultTyped(ps, ty, i.dst.value, i.op, i.args) && i.dst.value !in SizeUses(ps, i.dst.value)
    ensures var (env', w') := RunInstr(sem, i, env, w);
            WorldOk(Owned(owner, i, w), w') && AllGood(ps, ty, Owned(owner, i, w), env', w', after)
  {
    var (x, u) := Exec(sem, i.op, EvalAll(env, i.args), w);
    ExecKeeps(sem, i.op, EvalAll(env, i.args), owner, w);
    if i.dst.Some? {
      ResultGood(sem, ps, ty, i, owner, env, w);
    }
    forall v | v in after - DstSet(i)
      ensures Good(ps, ty, Owned(owner, i, w), Assign(env, i.dst, x), u, v)
    {
      StaysGood(ps, ty, owner, Owned(owner, i, w), env, w, u, i.dst, x, v);
    }
  }

  lemma {:induction false} BodyGood(sem: Sem, ps: Pointers, ty: Types, body: seq<Instr>, term: Term, out: set<Value>,
                                    owner: Owner, env: Env, w: World) returns (more: Owner)
    requires ps.Acyclic() && WorldOk(owner, w)
    requires forall i :: i in body ==>
               !i.op.CallsRuntime() && (i.dst.Some? ==> ResultTyped(ps, ty, i.dst.value, i.op, i.args))
    requires SizesFirst(ps, body) && SizesKept(ps, BodyLive(ps, body, term, out), Dsts(body))
    requires AllGood(ps, ty, owner, env, w, BodyLive(ps, body, term, out))
    ensures var (env', w') := RunBody(sem, body, env, w);
            WorldOk(more, w') && AllGood(ps, ty, more, env', w', ArgNeeds(ps, term.args) + out)
    decreases |body|
  {
    if body == [] {
      more := owner;
    } else {
      var i, rest := body[0], body[1..];
      assert body == [i] + rest;
      DstsCons(i, rest);
      assert i in body && forall j :: j in rest ==> j in body;
      InstrGood(sem, ps, ty, i, BodyLive(ps, rest, term, out), owner, env, w);
      var (env', w') := RunInstr(sem, i, env, w);
      more := BodyGood(sem, ps, ty, rest, term, out, Owned(owner, i, w), env', w');
    }
  }

  // ----- one edge -----

  lemma PhiGood(ps: Pointers, ty: Types, phis: map<Value, Incoming>, x: Value, m: Label, owner: Owner, env: Env, w: World)
    requires ps.Acyclic() && x in phis && m in phis[x] && PhiTyped(ps, ty, phis, x, m)
    requires AllGood(ps, ty, owner, env, w, PhiNeeds(ps, phis, m))
    ensures Good(ps, ty, owner, RunPhis(phis, m, env), w, x)
  {
    var o := phis[x][m];
    RunPhi(phis, x, m, o, env);
    if o.Use? { PhiOperandNeeded(ps, phis, x, m); }
    if x in ps.info {
      RunPhi(phis, ps.info[x].typeSizeInBits.v, m, ps.info[o.v].typeSizeInBits, env);
      RunPhi(phis, ps.info[x].numElements.v, m, ps.info[o.v].numElements, env);
    }
  }

  lemma OverPhisGood(ps: Pointers, ty: Types, phis: map<Value, Incoming>, m: Label, owner: Owner, env: Env, w: World, v: Value)
    requires Good(ps, ty, owner, env, w, v) && v !in phis && SizeUses(ps, v) !! phis.Keys
    ensures Good(ps, ty, owner, RunPhis(phis, m, env), w, v)
  {
    if v in ps.info {
      OperandOverPhis(phis, m, env, ps.info[v].typeSizeInBits);
      OperandOverPhis(phis, m, env, ps.info[v].numElements);
    }
  }

  lemma OperandOverPhis(phis: map<Value, Incoming>, m: Label, env: Env, o: Operand)
    requires OperandUses(o) !! phis.Keys
    ensures Eval(RunPhis(phis, m, env), o) == Eval(env, o)
  {
  }

  /** The values an edge needs. */
  function EdgeValues(ps: Pointers, p: Program, live: map<Label, set<CFGUse>>, m: Label, n: Label): set<Value>
    requires ps.Acyclic() && n in p.blocks
  {
    PhiNeeds(ps, p.blocks[n].phis, m) + AnyAt(live, n)
  }

  lemma PhisGood(ps: Pointers, ty: Types, phis: map<Value, Incoming>, m: Label, any: set<Value>, owner: Owner, env: Env, w: World)
    requires ps.Acyclic() && AllGood(ps, ty, owner, env, w, PhiNeeds(ps, phis, m) + any)
    requires forall x :: x in phis ==> m in phis[x] && PhiTyped(ps, ty, phis, x, m)
    requires any !! phis.Keys && SizesKept(ps, any, phis.Keys)
    ensures AllGood(ps, ty, owner, RunPhis(phis, m, env), w, any + phis.Keys)
  {
    forall v | v in any + phis.Keys ensures Good(ps, ty, owner, RunPhis(phis, m, env), w, v) {
      if v in phis {
        PhiGood(ps, ty, phis, v, m, owner, env, w);
      } else {
        OverPhisGood(ps, ty, phis, m, owner, env, w, v);
      }
    }
  }

  // ----- sizes are not redefined -----

  lemma SizesAreNeeds(ps: Pointers, v: Value, a: Value)
    requires ps.Acyclic() && ScalarSizes(ps) && a in SizeUses(ps, v)
    ensures a in PointerUses(ps, v) && a != v
  {
  }

  lemma LiveSizesKept(ps: Pointers, p: Program, live: map<Label, set<CFGUse>>, n: Label)
    requires SSA(ps, p) && NeedsDominate(ps, p) && LiveOk(ps, p, live) && n in p.blocks
    ensures SizesKept(ps, AnyAt(live, n), BlockDefs(p.blocks[n], ArgsAt(p, n)))
  {
    forall v, a | v in AnyAt(live, n) && a in SizeUses(ps, v)
      ensures a !in BlockDefs(p.blocks[n], ArgsAt(p, n))
    {
      SizesAreNeeds(ps, v, a);
      AnyIsLive(ps, p, live, n, v);
      NotRedefined(FlowOf(ps, p), v, a, n);
      BlockFlow(ps, p, n);
    }
  }

  lemma PhiSizesKept(ps: Pointers, ty: Types, b: Block, m: Label)
    requires BlockTyped(ps, ty, b) && forall x :: x in b.phis ==> m in b.phis[x]
    ensures SizesKept(ps, b.phis.Keys, Dsts(b.body))
  {
    forall x, a | x in b.phis && a in SizeUses(ps, x) ensures a in b.phis {
      assert PhiTyped(ps, ty, b.phis, x, m);
    }
  }

  lemma BodySizesKept(ps: Pointers, ty: Types, p: Program, live: map<Label, set<CFGUse>>, m: Label, n: Label)
    requires SSA(ps, p) && ProgramOk(p) && NeedsDominate(ps, p) && LiveOk(ps, p, live) && Typed(ps, ty, p)
    requires IsEdge(p, m, n) && n != p.entry
    ensures SizesKept(ps, AnyAt(live, n) + p.blocks[n].phis.Keys, Dsts(p.blocks[n].body))
  {
    LiveSizesKept(ps, p, live, n);
    PhiSizesKept(ps, ty, p.blocks[n], m);
  }

  // ----- runs -----

  /** What holds when control enters a block. */
  ghost predicate SoundBy(ps: Pointers, ty: Types, p: Program, live: map<Label, set<CFGUse>>, owner: Owner, s: State)
    requires ps.Acyclic()
  {
    && WorldOk(owner, s.world)
    && if s.at == p.entry then AllGood(ps, ty, owner, s.env, s.world, p.args)
       else IsEdge(p, s.pred, s.at) && AllGood(ps, ty, owner, s.env, s.world, EdgeValues(ps, p, live, s.pred, s.at))
  }

  ghost predicate Sound(ps: Pointers, ty: Types, p: Program, live: map<Label, set<CFGUse>>, s: State)
    requires ps.Acyclic()
  {
    exists owner :: SoundBy(ps, ty, p, live, owner, s)
  }

  /** At the entry it is enough that the arguments are scalars of their widths. */
  lemma EntrySound(ps: Pointers, ty: Types, p: Program, live: map<Label, set<CFGUse>>, s: State)
    requires ps.Acyclic() && Typed(ps, ty, p) && s.at == p.entry
    requires forall a :: a in s.world.cells ==> a < s.world.next
    requires forall v :: v in p.args ==> Get(s.env, v).Int? && Get(s.env, v).i < Pow2(ty.Width(v))
    ensures Sound(ps, ty, p, live, s)
  {
    assert SoundBy(ps, ty, p, live, map[], s);
  }

  /** The function and its analysis, as far as runs are concerned. */
  ghost predicate Analysed(ps: Pointers, ty: Types, p: Program, live: map<Label, set<CFGUse>>) {
    && ps.Acyclic() && p.entry in p.blocks
    && forall k {:trigger InAnalysed(k)} :: InAnalysed(k) ==>
         SSA(ps, p) && ProgramOk(p) && NeedsDominate(ps, p) && LiveOk(ps, p, live) && Typed(ps, ty, p)
  }

  /** Marks where a proof looks inside `Analysed`. */
  ghost predicate InAnalysed(k: nat) { true }

  /** The code of a block, from its phis on, keeps everything good. */
  lemma CodeGood(sem: Sem, ps: Pointers, ty: Types, p: Program, live: map<Label, set<CFGUse>>, n: Label,
                 owner: Owner, env: Env, w: World) returns (more: Owner)
    requires ps.Acyclic() && ProgramOk(p) && Typed(ps, ty, p) && n in p.blocks && WorldOk(owner, w)
    requires SizesKept(ps, BodyLive(ps, p.blocks[n].body, p.blocks[n].term, OutSet(ps, p, live, n)), Dsts(p.blocks[n].body))
    requires AllGood(ps, ty, owner, env, w, BodyLive(ps, p.blocks[n].body, p.blocks[n].term, OutSet(ps, p, live, n)))
    ensures var (env', w') := RunBody(sem, p.blocks[n].body, env, w);
            var next := Target(p.blocks[n].term, env');
            next.Some? ==> SoundBy(ps, ty, p, live, more, State(n, next.value, env', w'))
  {
    var b := p.blocks[n];
    assert BlockOk(p, b) && BlockTyped(ps, ty, b);
    more := BodyGood(sem, ps, ty, b.body, b.term, OutSet(ps, p, live, n), owner, env, w);
    var (env', w') := RunBody(sem, b.body, env, w);
    TargetIsSuccessor(b.term, env');
    var next := Target(b.term, env');
    if next.Some? {
      EdgeValuesOut(ps, p, live, n, next.value);
    }
  }

  lemma EdgeValuesOut(ps: Pointers, p: Program, live: map<Label, set<CFGUse>>, m: Label, n: Label)
    requires ps.Acyclic() && IsEdge(p, m, n)
    ensures EdgeValues(ps, p, live, m, n) <= OutSet(ps, p, live, m)
  {
  }

  lemma SoundStep(sem: Sem, ps: Pointers, ty: Types, p: Program, live: map<Label, set<CFGUse>>, s: State)
    requires Analysed(ps, ty, p, live) && Sound(ps, ty, p, live, s)
    ensures Step(sem, p, s).Some? ==> Sound(ps, ty, p, live, Step(sem, p, s).value)
  {
    assert InAnalysed(0);
    var owner :| SoundBy(ps, ty, p, live, owner, s);
    var more;
    if s.at == p.entry {
      EntryReady(ps, ty, p, live, owner, s);
    } else {
      BlockReady(ps, ty, p, live, owner, s);
    }
    more := BlockGood(sem, ps, ty, p, live, s, owner);
  }

  /** One block, its phis done. */
  lemma BlockGood(sem: Sem, ps: Pointers, ty: Types, p: Program, live: map<Label, set<CFGUse>>, s: State, owner: Owner)
    returns (more: Owner)
    requires ps.Acyclic() && ProgramOk(p) && Typed(ps, ty, p) && s.at in p.blocks && WorldOk(owner, s.world)
    requires var b := p.blocks[s.at];
             var needed := BodyLive(ps, b.body, b.term, OutSet(ps, p, live, s.at));
             && AllGood(ps, ty, owner, RunPhis(b.phis, s.pred, s.env), s.world, needed)
             && SizesKept(ps, needed, Dsts(b.body))
    ensures Step(sem, p, s).Some? ==> SoundBy(ps, ty, p, live, more, Step(sem, p, s).value)
  {
    more := CodeGood(sem, ps, ty, p, live, s.at, owner, RunPhis(p.blocks[s.at].phis, s.pred, s.env), s.world);
  }

  lemma EntryReady(ps: Pointers, ty: Types, p: Program, live: map<Label, set<CFGUse>>, owner: Owner, s: State)
    requires Analysed(ps, ty, p, live) && SoundBy(ps, ty, p, live, owner, s) && s.at == p.entry
    ensures var b := p.blocks[p.entry];
            var needed := BodyLive(ps, b.body, b.term, OutSet(ps, p, live, p.entry));
            && AllGood(ps, ty, owner, RunPhis(b.phis, s.pred, s.env), s.world, needed)
            && SizesKept(ps, needed, Dsts(b.body))
  {
    assert InAnalysed(0);
    NoPhis(s.pred, s.env);
    EntryNeedsArgs(ps, p, live);
  }

  lemma BlockReady(ps: Pointers, ty: Types, p: Program, live: map<Label, set<CFGUse>>, owner: Owner, s: State)
    requires Analysed(ps, ty, p, live) && SoundBy(ps, ty, p, live, owner, s) && s.at != p.entry
    ensures var b := p.blocks[s.at];
            var needed := BodyLive(ps, b.body, b.term, OutSet(ps, p, live, s.at));
            && AllGood(ps, ty, owner, RunPhis(b.phis, s.pred, s.env), s.world, needed)
            && SizesKept(ps, needed, Dsts(b.body))
  {
    assert InAnalysed(0);
    var n := s.at;
    LiveOfBlock(ps, p, live, n);
    BodySizesKept(ps, ty, p, live, s.pred, n);
    PhisReady(ps, ty, p, live, owner, s);
  }

  lemma PhisReady(ps: Pointers, ty: Types, p: Program, live: map<Label, set<CFGUse>>, owner: Owner, s: State)
    requires Analysed(ps, ty, p, live) && SoundBy(ps, ty, p, live, owner, s) && s.at != p.entry
    ensures AllGood(ps, ty, owner, RunPhis(p.blocks[s.at].phis, s.pred, s.env), s.world, AnyAt(live, s.at) + p.blocks[s.at].phis.Keys)
  {
    assert InAnalysed(0);
    var n, b := s.at, p.blocks[s.at];
    LiveOfBlock(ps, p, live, n);
    LiveSizesKept(ps, p, live, n);
    EdgePhisTyped(ps, ty, p, s.pred, n);
    PhisGood(ps, ty, b.phis, s.pred, AnyAt(live, n), owner, s.env, s.world);
  }

  lemma EdgePhisTyped(ps: Pointers, ty: Types, p: Program, m: Label, n: Label)
    requires ProgramOk(p) && Typed(ps, ty, p) && IsEdge(p, m, n)
    ensures forall x :: x in p.blocks[n].phis ==> m in p.blocks[n].phis[x] && PhiTyped(ps, ty, p.blocks[n].phis, x, m)
  {
    assert BlockTyped(ps, ty, p.blocks[n]);
  }

  /** In every state a run reaches, every live value is good. */
  lemma SoundRun(sem: Sem, ps: Pointers, ty: Types, p: Program, live: map<Label, set<CFGUse>>, s: State, k: nat)
    requires Analysed(ps, ty, p, live) && Sound(ps, ty, p, live, s)
    ensures Run(Steps(sem, p), s, k).Some? ==> Sound(ps, ty, p, live, Run(Steps(sem, p), s, k).value)
  {
    ghost var inv := (a: State) => Sound(ps, ty, p, live, a);
    forall a | inv(a) && Steps(sem, p)(a).Some? ensures inv(Steps(sem, p)(a).value) {
      SoundStep(sem, ps, ty, p, live, a);
    }
    KeptByRuns(Steps(sem, p), inv, s, k);
  }

  /**
    Size shadowing: whatever block a run enters, the size and the count recorded for a live pointer multiply to the
    number of bits of the allocation it points into.
   */
  lemma SizesShadow(sem: Sem, ps: Pointers, ty: Types, p: Program, live: map<Label, set<CFGUse>>, s: State, k: nat, v: Value)
    requires Analysed(ps, ty, p, live) && Sound(ps, ty, p, live, s)
    requires Run(Steps(sem, p), s, k).Some?
    ensures var t := Run(Steps(sem, p), s, k).value;
            t.at != p.entry && v in AnyAt(live, t.at) && v in ps.info ==>
              Sized(t.env, t.world, Get(t.env, v), ps.info[v].typeSizeInBits, ps.info[v].numElements)
  {
    SoundRun(sem, ps, ty, p, live, s, k);
  }
}
