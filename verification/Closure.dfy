/**
  Live sets are closed under "size of", "element count of" and "alias of": what the emission
  needs for a live pointer is live as well.
 */
module Closure {
  import opened IR
  import opened Pointers
  import opened Paths
  import opened UseDef
  import opened Function

  /** What a pointer needs is defined before the pointer, on every walk from the entry. */
  ghost predicate NeedsDominate(ps: Pointers, p: Program)
    requires ps.Acyclic()
  {
    forall q, a :: a in PointerUses(ps, q) && a != q ==> Dominates(FlowOf(ps, p), a, q)
  }

  lemma NeedsTransitive(ps: Pointers, v: Value, q: Value, a: Value)
    requires ps.Acyclic() && ScalarSizes(ps)
    requires q in Needs(ps, v) && a in PointerUses(ps, q)
    ensures a in Needs(ps, v)
  {
    if q != v { PointerUsesTransitive(ps, v, q, a); }
  }

  lemma {:induction false} ArgNeedsClosed(ps: Pointers, os: seq<Operand>, q: Value, a: Value)
    requires ps.Acyclic() && ScalarSizes(ps)
    requires q in ArgNeeds(ps, os) && a in PointerUses(ps, q)
    ensures a in ArgNeeds(ps, os)
  {
    if q in OperandNeeds(ps, os[0]) {
      NeedsTransitive(ps, os[0].v, q, a);
    } else {
      ArgNeedsClosed(ps, os[1..], q, a);
    }
  }

  lemma {:induction false} BodyNeedsClosed(ps: Pointers, body: seq<Instr>, term: Term, q: Value, a: Value)
    requires ps.Acyclic() && ScalarSizes(ps)
    requires q in BodyNeeds(ps, body, term) && a in PointerUses(ps, q)
    ensures a in BodyNeeds(ps, body, term) || a in Dsts(body)
  {
    if body == [] {
      ArgNeedsClosed(ps, term.args, q, a);
    } else {
      assert body == [body[0]] + body[1..];
      DstsCons(body[0], body[1..]);
      if q in ArgNeeds(ps, body[0].args) {
        ArgNeedsClosed(ps, body[0].args, q, a);
      } else {
        BodyNeedsClosed(ps, body[1..], term, q, a);
      }
    }
  }

  lemma PhiNeedsClosed(ps: Pointers, phis: map<Value, Incoming>, pred: Label, q: Value, a: Value)
    requires ps.Acyclic() && ScalarSizes(ps)
    requires q in PhiNeeds(ps, phis, pred) && a in PointerUses(ps, q)
    ensures a in PhiNeeds(ps, phis, pred)
  {
    var x :| x in phis && pred in phis[x] && q in OperandNeeds(ps, phis[x][pred]);
    NeedsTransitive(ps, phis[x][pred].v, q, a);
    assert a in OperandNeeds(ps, phis[x][pred]);
  }

  /** Wherever a pointer is used, so is what it needs. */
  lemma NeedsUsedTogether(ps: Pointers, p: Program, q: Value, a: Value)
    requires ps.Acyclic() && ScalarSizes(ps) && a in PointerUses(ps, q)
    ensures UsedTogether(FlowOf(ps, p), q, a)
  {
    var f := FlowOf(ps, p);
    forall n | q in f.Use(n)
      ensures a in f.Use(n) || a in f.Def(n)
    {
      BodyNeedsClosed(ps, p.blocks[n].body, p.blocks[n].term, q, a);
    }
    forall m, n | q in f.Edge(m, n)
      ensures a in f.Edge(m, n)
    {
      PhiNeedsClosed(ps, p.blocks[n].phis, m, q, a);
    }
  }

  /** Live sets are closed. */
  lemma LiveClosed(ps: Pointers, p: Program, n: Label, q: Value, a: Value)
    requires SSA(ps, p) && NeedsDominate(ps, p) && n in p.blocks
    requires LiveIn(FlowOf(ps, p), q, n) && a in Needs(ps, q)
    ensures LiveIn(FlowOf(ps, p), a, n)
  {
    if a != q {
      NeedsUsedTogether(ps, p, q, a);
      LiveInTogether(FlowOf(ps, p), q, a, n);
    }
  }

  // ----- values that the phis of a block need from several blocks -----

  /**
    What a pointer phi drags along is live into the block of the phi by ordinary uses, when the phi itself is live behind
    it by ordinary uses.  So the phis of a loop may swap their pointers: see `SharedUsesLive`.
   */
  lemma DraggedAlongLive(ps: Pointers, p: Program, n: Label, s: Label, x: Value, a: Value)
    requires SSA(ps, p) && NeedsDominate(ps, p) && n in p.blocks && s in p.blocks && s in FlowOf(ps, p).Succ(n)
    requires LiveIn(Ordinary(FlowOf(ps, p)), x, s) && a in PointerUses(ps, x) && a !in FlowOf(ps, p).Def(n)
    ensures LiveIn(Ordinary(FlowOf(ps, p)), a, n)
  {
    var f := FlowOf(ps, p);
    if a != x {
      NeedsUsedTogether(ps, p, x, a);
      OrdinaryTogether(f, x, a, s);
    }
    LiveBackwards(Ordinary(f), a, n, s);
  }
}
