/**
  What is assumed of the function the pass is given, once its blocks are split and its
  pointers analysed.
 */
module Function {
  import opened IR
  import opened Pointers
  import opened Paths
  import opened Cfg
  import opened UseDef
  import opened Transform

  predicate Sources(vs: set<Value>) {
    forall v :: v in vs ==> v.Src?
  }

  /** A block of the function proper: its own names, no runtime calls, edges to other blocks but the entry. */
  predicate BlockOk(p: Program, b: Block) {
    && Sources(b.phis.Keys) && Sources(Dsts(b.body))
    && (forall i :: i in b.body ==> !i.op.CallsRuntime())
    && (forall x :: x in b.phis ==> b.phis[x].Keys <= p.blocks.Keys)
    && (forall s :: s in TermTargets(b.term) ==> s in p.blocks && s != p.entry)
  }

  /** Every phi has an operand for every edge into its block. */
  predicate PhisComplete(p: Program) {
    forall m, n, x :: m in p.blocks && n in p.blocks && n in TermTargets(p.blocks[m].term) && x in p.blocks[n].phis ==>
      m in p.blocks[n].phis[x]
  }

  predicate ProgramOk(p: Program) {
    && p.entry in p.blocks && p.blocks[p.entry].phis == map[] && Sources(p.args)
    && p.args !! Dsts(p.blocks[p.entry].body)
    && (forall l :: l in p.blocks ==> l.Orig? && BlockOk(p, p.blocks[l]))
    && PhisComplete(p)
  }

  /** Static single assignment: one definition, which every use has behind it on every path from the entry. */
  ghost predicate SSA(ps: Pointers, p: Program) {
    && ps.Acyclic() && ScalarSizes(ps)
    && var f := FlowOf(ps, p);
       && Strict(f) && SingleDef(f)
       && (forall n :: n in p.blocks ==> Reachable(f, n))
       && (forall v :: v in p.args ==> !exists s :: s in f.Succ(p.entry) && LiveEdge(f, v, p.entry, s))
  }

  /** Only blocks without phis are checkpointed, and never the entry; labels stay below the "no restart" answer. */
  predicate PlanOk(p: Program, plan: Plan) {
    && |plan.headers| < 0xFFFF_FFFF_FFFF_FFFF
    && (forall h :: h in plan.headers ==> h in p.blocks && h != p.entry && p.blocks[h].phis == map[])
    && (forall i, j :: 0 <= i < j < |plan.headers| ==> plan.headers[i] != plan.headers[j])
    && (forall h, i :: h in plan.headers && i in EmittedFor(plan, h).saves ==> i.dst.None? && IsSave(i.op))
  }

  predicate IsSave(op: Op) {
    op.SaveStart? || op.SaveScalar? || op.SavePointer? || op.SaveAlias? || op.SaveFinish?
  }

  /** The live sets are those of the analysis, and record every phi operand. */
  ghost predicate LiveOk(ps: Pointers, p: Program, live: map<Label, set<CFGUse>>)
    requires ps.Acyclic()
  {
    forall n :: n in p.blocks ==>
      && n in live
      && (forall v :: v in AnyValues(live[n]) <==> LiveIn(FlowOf(ps, p), v, n))
      && (forall m, v :: v in PhiNeeds(ps, p.blocks[n].phis, m) ==> v in PhiOnlyValues(live[n]))
  }

  /** Phi-only live values are those the block's own phis need. */
  ghost predicate PhiUsesNeeded(ps: Pointers, phis: map<Value, Incoming>, live: set<CFGUse>)
    requires ps.Acyclic()
  {
    forall u :: u in live && u.useType.PHIOnly? ==> u.sourcePHIBlock.Some? && u.value in PhiNeeds(ps, phis, u.sourcePHIBlock.value)
  }

  /** The live sets are sets of the use order, and their phi uses their own. */
  ghost predicate OwnUses(ps: Pointers, p: Program, live: map<Label, set<CFGUse>>)
    requires ps.Acyclic()
  {
    forall n :: n in p.blocks ==> n in live && UseSetOk(live[n]) && PhiUsesNeeded(ps, p.blocks[n].phis, live[n])
  }
}
