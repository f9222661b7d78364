/**
  The transformed function has the shape the simulation asks for, and every name it uses
  is defined where it is used.
 */
module Rewriting {
  import opened IR
  import opened Pointers
  import opened Paths
  import opened Cfg
  import opened UseDef
  import opened Transform
  import opened Function
  import opened Simulation

  /** Marks where a proof looks inside `Given`. */
  ghost predicate InGiven(k: nat) { true }

  /** What the rewriting is given; behind a mark, which keeps it out of the proofs that only pass it on. */
  ghost predicate Given(ps: Pointers, p: Program, plan: Plan, live: map<Label, set<CFGUse>>) {
    && ps.Acyclic() && p.entry in p.blocks
    && forall k {:trigger InGiven(k)} :: InGiven(k) ==> SSA(ps, p) && ProgramOk(p) && PlanOk(p, plan) && LiveOk(ps, p, live)
  }

  function AnyAt(live: map<Label, set<CFGUse>>, l: Label): set<Value> {
    AnyValues(LiveAt(live, l))
  }

  /** The values needed behind the end of block `n`. */
  function OutSet(ps: Pointers, p: Program, live: map<Label, set<CFGUse>>, n: Label): set<Value>
    requires ps.Acyclic() && n in p.blocks
  {
    (set s, v | s in TermTargets(p.blocks[n].term) && s in p.blocks && v in PhiNeeds(ps, p.blocks[s].phis, n) :: v) +
    (set s, v | s in TermTargets(p.blocks[n].term) && v in AnyAt(live, s) :: v)
  }

  function ViewOf(ps: Pointers, p: Program, plan: Plan, live: map<Label, set<CFGUse>>): View
    requires ps.Acyclic() && p.entry in p.blocks
  {
    var nodes := NodesOf(p, plan, live);
    View(map n | n in p.blocks :: AnyAt(live, n),
         map n | n in p.blocks :: OutSet(ps, p, live, n),
         (l: Label, v: Value) => Mapped(nodes, l, v))
  }

  // ----- the flow graph -----

  lemma EdgeOf(ps: Pointers, p: Program, m: Label, n: Label)
    requires ps.Acyclic() && m in p.blocks && n in p.blocks
    ensures FlowOf(ps, p).Edge(m, n) == PhiNeeds(ps, p.blocks[n].phis, m)
  {
  }

  lemma BlockFlow(ps: Pointers, p: Program, n: Label)
    requires ps.Acyclic() && n in p.blocks
    ensures var f := FlowOf(ps, p);
            && f.entry == p.entry
            && f.Succ(n) == TermTargets(p.blocks[n].term)
            && f.Def(n) == BlockDefs(p.blocks[n], ArgsAt(p, n))
            && f.Use(n) == BlockUses(ps, p.blocks[n], ArgsAt(p, n))
  {
  }

  lemma AnyIsLive(ps: Pointers, p: Program, live: map<Label, set<CFGUse>>, n: Label, v: Value)
    requires ps.Acyclic() && LiveOk(ps, p, live) && n in p.blocks
    ensures v in AnyAt(live, n) <==> LiveIn(FlowOf(ps, p), v, n)
  {
  }

  lemma OutIsLive(ps: Pointers, p: Program, live: map<Label, set<CFGUse>>, n: Label, v: Value) returns (s: Label)
    requires ps.Acyclic() && ProgramOk(p) && LiveOk(ps, p, live) && n in p.blocks && v in OutSet(ps, p, live, n)
    ensures s in FlowOf(ps, p).Succ(n) && LiveEdge(FlowOf(ps, p), v, n, s)
  {
    BlockFlow(ps, p, n);
    if s' :| s' in TermTargets(p.blocks[n].term) && s' in p.blocks && v in PhiNeeds(ps, p.blocks[s'].phis, n) {
      s := s';
      EdgeOf(ps, p, n, s);
    } else {
      s :| s in TermTargets(p.blocks[n].term) && v in AnyAt(live, s);
      AnyIsLive(ps, p, live, s, v);
    }
  }

  /** What is live before the code of `n` is live into it, one of its phis, or an argument in the entry. */
  lemma LiveBeforeBody(ps: Pointers, p: Program, live: map<Label, set<CFGUse>>, n: Label, v: Value)
    requires ps.Acyclic() && ProgramOk(p) && LiveOk(ps, p, live) && n in p.blocks
    requires v in BodyLive(ps, p.blocks[n].body, p.blocks[n].term, OutSet(ps, p, live, n))
    ensures v in p.blocks[n].phis || v in ArgsAt(p, n) || LiveIn(FlowOf(ps, p), v, n)
  {
    var f := FlowOf(ps, p);
    var b := p.blocks[n];
    BlockFlow(ps, p, n);
    BodyLiveSplit(ps, b.body, b.term, OutSet(ps, p, live, n));
    if v !in b.phis && v !in ArgsAt(p, n) {
      if v in BodyNeeds(ps, b.body, b.term) {
        UsedIsLive(f, v, n);
      } else {
        var s := OutIsLive(ps, p, live, n, v);
        LiveBackwards(f, v, n, s);
      }
    }
  }

  /** What is needed behind a block is live into it or defined by it. */
  lemma OutIsLiveOrDefined(ps: Pointers, p: Program, live: map<Label, set<CFGUse>>, n: Label, v: Value)
    requires ps.Acyclic() && ProgramOk(p) && LiveOk(ps, p, live) && n in p.blocks
    requires v in OutSet(ps, p, live, n)
    ensures v in AnyAt(live, n) || v in BlockDefs(p.blocks[n], ArgsAt(p, n))
  {
    BlockFlow(ps, p, n);
    var s := OutIsLive(ps, p, live, n, v);
    if v !in FlowOf(ps, p).Def(n) {
      LiveBackwards(FlowOf(ps, p), v, n, s);
      AnyIsLive(ps, p, live, n, v);
    }
  }

  lemma AnyNotDefined(ps: Pointers, p: Program, live: map<Label, set<CFGUse>>, n: Label, v: Value)
    requires SSA(ps, p) && LiveOk(ps, p, live) && n in p.blocks && v in AnyAt(live, n)
    ensures v !in BlockDefs(p.blocks[n], ArgsAt(p, n))
  {
    BlockFlow(ps, p, n);
    AnyIsLive(ps, p, live, n, v);
    LiveNotDefined(FlowOf(ps, p), v, n);
  }

  // ----- the blocks -----

  lemma InsertedBlocks(p: Program, plan: Plan, h: Label)
    requires ProgramOk(p) && PlanOk(p, plan) && h in plan.headers
    ensures CheckpointOf(h) in AllLabels(p, plan) && RestartOf(h) in AllLabels(p, plan)
    ensures CheckpointOf(h).Checkpoint? && RestartOf(h).Restart?
  {
    assert h.Orig?;
    assert CheckpointOf(h) in InsertedLabels(plan.headers) && RestartOf(h) in InsertedLabels(plan.headers);
  }

  lemma FixedAt(p: Program, plan: Plan, live: map<Label, set<CFGUse>>, l: Label)
    requires p.entry in p.blocks && l in AllLabels(p, plan)
    ensures var t := Transformed(p, plan, live);
            var q := Instrumented(p, plan);
            l in q.blocks && l in t.blocks && t.blocks[l] == FixedBlock(q, NodesOf(p, plan, live), l)
    ensures Instrumented(p, plan).blocks[l] == InstrumentedBlock(p, plan, l)
  {
  }

  lemma NodeAt(p: Program, plan: Plan, live: map<Label, set<CFGUse>>, l: Label)
    requires p.entry in p.blocks && l in AllLabels(p, plan)
    ensures var nodes := NodesOf(p, plan, live);
            && LiveAt(nodes.live, l) == NodeLive(live, l)
            && l in nodes.mapping && nodes.mapping[l] == NodeMapping(p, plan, live, l)
  {
  }

  /** What the view says. */
  lemma ViewAt(ps: Pointers, p: Program, plan: Plan, live: map<Label, set<CFGUse>>, n: Label)
    requires ps.Acyclic() && p.entry in p.blocks && n in p.blocks
    ensures var view := ViewOf(ps, p, plan, live);
            view.Any(n) == AnyAt(live, n) && view.Out(n) == OutSet(ps, p, live, n)
  {
  }

  lemma NameAt(ps: Pointers, p: Program, plan: Plan, live: map<Label, set<CFGUse>>, l: Label, v: Value)
    requires ps.Acyclic() && p.entry in p.blocks && l in AllLabels(p, plan)
    ensures ViewOf(ps, p, plan, live).name(l, v) ==
            if v in AnyValues(NodeLive(live, l)) then LivePhi(v, l)
            else if v in NodeMapping(p, plan, live, l) then NodeMapping(p, plan, live, l)[v]
            else v
  {
    NodeAt(p, plan, live, l);
  }

  lemma OriginalBlock(p: Program, plan: Plan, live: map<Label, set<CFGUse>>, n: Label)
    requires ProgramOk(p) && n in p.blocks && n != p.entry
    ensures var t := Transformed(p, plan, live);
            var any := AnyAt(live, n);
            && n in t.blocks
            && t.blocks[n].body == SubBody(any, n, p.blocks[n].body)
            && t.blocks[n].term == SubTerm(any, n, RedirectTerm(plan.headers, p.blocks[n].term))
  {
    FixedAt(p, plan, live, n);
    NodeAt(p, plan, live, n);
  }

  lemma BodyShapeHolds(ps: Pointers, p: Program, plan: Plan, live: map<Label, set<CFGUse>>, n: Label)
    requires Given(ps, p, plan, live) && n in p.blocks && n != p.entry
    ensures BodyShape(ps, p, plan.headers, Transformed(p, plan, live), ViewOf(ps, p, plan, live), n)
  {
    assert InGiven(0);
    ViewAt(ps, p, plan, live, n);
    OriginalBlock(p, plan, live, n);
    LiveOfBlock(ps, p, live, n);
    NamesBehind(ps, p, plan, live, n);
  }

  lemma LiveOfBlock(ps: Pointers, p: Program, live: map<Label, set<CFGUse>>, n: Label)
    requires SSA(ps, p) && ProgramOk(p) && LiveOk(ps, p, live) && n in p.blocks && n != p.entry
    ensures var b := p.blocks[n];
            && Dsts(b.body) !! AnyAt(live, n) && b.phis.Keys !! AnyAt(live, n)
            && BodyLive(ps, b.body, b.term, OutSet(ps, p, live, n)) <= AnyAt(live, n) + b.phis.Keys
  {
    var b := p.blocks[n];
    forall v | v in AnyAt(live, n)
      ensures v !in Dsts(b.body) && v !in b.phis
    {
      AnyNotDefined(ps, p, live, n, v);
    }
    forall v | v in BodyLive(ps, b.body, b.term, OutSet(ps, p, live, n))
      ensures v in AnyAt(live, n) + b.phis.Keys
    {
      LiveBeforeBody(ps, p, live, n, v);
      AnyIsLive(ps, p, live, n, v);
    }
  }

  lemma NamesBehind(ps: Pointers, p: Program, plan: Plan, live: map<Label, set<CFGUse>>, n: Label)
    requires ps.Acyclic() && ProgramOk(p) && n in p.blocks
    ensures forall v :: ViewOf(ps, p, plan, live).name(n, v) == Sub(AnyAt(live, n), n, v)
  {
    forall v ensures ViewOf(ps, p, plan, live).name(n, v) == Sub(AnyAt(live, n), n, v) {
      NameAt(ps, p, plan, live, n, v);
    }
  }

  lemma OutShapeHolds(ps: Pointers, p: Program, plan: Plan, live: map<Label, set<CFGUse>>)
    requires ps.Acyclic() && p.entry in p.blocks
    ensures OutShape(ps, p, ViewOf(ps, p, plan, live))
  {
    var view := ViewOf(ps, p, plan, live);
    forall m, n | IsEdge(p, m, n)
      ensures EdgeSet(ps, p, view, m, n) <= view.Out(m)
    {
      forall v | v in EdgeSet(ps, p, view, m, n) ensures v in OutSet(ps, p, live, m) {
        if v in PhiNeeds(ps, p.blocks[n].phis, m) { } else { assert v in AnyAt(live, n); }
      }
    }
  }

  lemma EntryShapeHolds(ps: Pointers, p: Program, plan: Plan, live: map<Label, set<CFGUse>>)
    requires Given(ps, p, plan, live)
    ensures EntryShape(ps, p, plan.headers, Transformed(p, plan, live), ViewOf(ps, p, plan, live))
  {
    assert InGiven(0);
    EntryBlocksHold(ps, p, plan, live);
    EntryNamesHold(ps, p, plan, live);
  }

  lemma EntryBlocksHold(ps: Pointers, p: Program, plan: Plan, live: map<Label, set<CFGUse>>)
    requires SSA(ps, p) && ProgramOk(p) && LiveOk(ps, p, live)
    ensures EntryBlocks(p, plan.headers, Transformed(p, plan, live))
  {
    NothingLiveAtEntry(ps, p, live);
    DispatchInPlace(p, plan, live);
    EntryCodeMoved(p, plan, live);
  }

  lemma EntryNamesHold(ps: Pointers, p: Program, plan: Plan, live: map<Label, set<CFGUse>>)
    requires SSA(ps, p) && ProgramOk(p) && LiveOk(ps, p, live)
    ensures EntryNames(ps, p, ViewOf(ps, p, plan, live))
  {
    EntryNeedsArgs(ps, p, live);
    ViewAt(ps, p, plan, live, p.entry);
    MovedNames(ps, p, plan, live);
  }

  lemma MovedNames(ps: Pointers, p: Program, plan: Plan, live: map<Label, set<CFGUse>>)
    requires ps.Acyclic() && p.entry in p.blocks
    ensures forall v :: ViewOf(ps, p, plan, live).name(NoCREntry, v) == v
  {
    NodeAt(p, plan, live, NoCREntry);
    IdentityNames(NodesOf(p, plan, live), NoCREntry, Dsts(p.blocks[p.entry].body));
  }

  lemma IdentityNames(nodes: Nodes, l: Label, vs: set<Value>)
    requires LiveAt(nodes.live, l) == {} && l in nodes.mapping && nodes.mapping[l] == Identity(vs)
    ensures forall v :: Mapped(nodes, l, v) == v
  {
  }

  lemma NothingLiveAtEntry(ps: Pointers, p: Program, live: map<Label, set<CFGUse>>)
    requires SSA(ps, p) && ProgramOk(p) && LiveOk(ps, p, live)
    ensures AnyAt(live, p.entry) == {}
  {
    BlockFlow(ps, p, p.entry);
    forall v | v in AnyAt(live, p.entry) ensures false { AnyIsLive(ps, p, live, p.entry, v); }
  }

  lemma EntryNeedsArgs(ps: Pointers, p: Program, live: map<Label, set<CFGUse>>)
    requires SSA(ps, p) && ProgramOk(p) && LiveOk(ps, p, live)
    ensures var b := p.blocks[p.entry];
            BodyLive(ps, b.body, b.term, OutSet(ps, p, live, p.entry)) <= p.args
  {
    var b := p.blocks[p.entry];
    BlockFlow(ps, p, p.entry);
    forall v | v in BodyLive(ps, b.body, b.term, OutSet(ps, p, live, p.entry))
      ensures v in p.args
    {
      LiveBeforeBody(ps, p, live, p.entry, v);
    }
  }

  lemma DispatchInPlace(p: Program, plan: Plan, live: map<Label, set<CFGUse>>)
    requires ProgramOk(p) && AnyAt(live, p.entry) == {}
    ensures var t := Transformed(p, plan, live);
            t.entry == p.entry && p.entry in t.blocks && t.blocks[p.entry] == DispatchBlock(plan.headers)
  {
    var l := p.entry;
    FixedAt(p, plan, live, l);
    NodeAt(p, plan, live, l);
    NothingToFix(Instrumented(p, plan), NodesOf(p, plan, live), l);
    var d := DispatchBlock(plan.headers);
    SubNothing(l, d.body);
  }

  lemma EntryCodeMoved(p: Program, plan: Plan, live: map<Label, set<CFGUse>>)
    requires ProgramOk(p)
    ensures var t := Transformed(p, plan, live);
            var b := p.blocks[p.entry];
            NoCREntry in t.blocks && t.blocks[NoCREntry] ==
              Block(map[], SubBody({}, NoCREntry, b.body), SubTerm({}, NoCREntry, RedirectTerm(plan.headers, b.term)))
  {
    FixedAt(p, plan, live, NoCREntry);
    NodeAt(p, plan, live, NoCREntry);
    NothingToFix(Instrumented(p, plan), NodesOf(p, plan, live), NoCREntry);
  }

  /** A block without phis and without live values only has its operands looked at. */
  lemma NothingToFix(q: Program, nodes: Nodes, l: Label)
    requires l in q.blocks && LiveAny(nodes, l) == {} && q.blocks[l].phis == map[]
    ensures FixedBlock(q, nodes, l) == Block(map[], SubBody({}, l, q.blocks[l].body), SubTerm({}, l, q.blocks[l].term))
  {
    NoNewPhis(q, nodes, l);
  }

  lemma NoNewPhis(q: Program, nodes: Nodes, l: Label)
    requires LiveAny(nodes, l) == {}
    ensures NewPhis(q, nodes, l) == map[]
  {
  }

  lemma {:induction false} SubNothing(l: Label, body: seq<Instr>)
    ensures SubBody({}, l, body) == body
    ensures forall os :: SubArgs({}, l, os) == os
  {
    forall os ensures SubArgs({}, l, os) == os { }
    if body != [] {
      SubNothing(l, body[1..]);
      assert SubArgs({}, l, body[0].args) == body[0].args;
    }
  }

  // ----- the phis -----

  lemma RedirectedTargets(headers: seq<Label>, t: Term, l: Label)
    requires l in TermTargets(t)
    ensures Redirect(headers, l) in TermTargets(RedirectTerm(headers, t))
  {
    if l != t.default.value {
      var c :| c in t.cases && c.1 == l;
      var i :| 0 <= i < |t.cases| && t.cases[i] == c;
      assert RedirectCases(headers, t.cases)[i] in RedirectCases(headers, t.cases);
    }
  }

  /** Where control enters a block, or its checkpoint block, in the instrumented function. */
  lemma RenamedPred(p: Program, plan: Plan, m: Label, n: Label)
    requires ProgramOk(p) && PlanOk(p, plan) && IsEdge(p, m, n)
    ensures Renamed(p.entry, m) in AllLabels(p, plan)
    ensures Renamed(p.entry, m) in Preds(Instrumented(p, plan), Redirect(plan.headers, n))
  {
    var l := Renamed(p.entry, m);
    assert l in AllLabels(p, plan);
    assert Instrumented(p, plan).blocks[l].term == RedirectTerm(plan.headers, p.blocks[m].term);
    RedirectedTargets(plan.headers, p.blocks[m].term, n);
  }

  lemma StandInIsPred(p: Program, plan: Plan, m: Label, n: Label, pred: Label)
    requires ProgramOk(p) && PlanOk(p, plan) && IsEdge(p, m, n) && StandsFor(p, plan.headers, m, n, pred)
    ensures pred in Preds(Instrumented(p, plan), n)
  {
    if n in plan.headers {
      InsertedBlocks(p, plan, n);
      assert Instrumented(p, plan).blocks[pred].term == Jump(n);
    } else {
      RenamedPred(p, plan, m, n);
    }
  }

  lemma NewPhiReads(q: Program, nodes: Nodes, l: Label, v: Value, pred: Label)
    requires l in q.blocks && v in LiveAny(nodes, l) && pred in Preds(q, l)
    ensures ReadsFrom(FixedBlock(q, nodes, l).phis, LivePhi(v, l), pred, Use(Mapped(nodes, pred, v)))
  {
    assert LivePhi(v, l) in PhiNames(LiveAny(nodes, l), l);
    assert LivePhi(v, l) in NewPhis(q, nodes, l);
  }

  lemma OldPhiReads(q: Program, nodes: Nodes, l: Label, x: Value, pred: Label)
    requires l in q.blocks && x in q.blocks[l].phis && pred in q.blocks[l].phis[x] && x.Src?
    ensures ReadsFrom(FixedBlock(q, nodes, l).phis, x, pred, FixOperand(nodes, l, pred, q.blocks[l].phis[x][pred]))
  {
    assert x !in NewPhis(q, nodes, l);
  }

  lemma RenamedIncoming(entry: Label, inc: Incoming, m: Label)
    requires m in inc && NoCREntry !in inc
    ensures var r := RenameIncoming(entry, inc);
            Renamed(entry, m) in r && r[Renamed(entry, m)] == inc[m]
  {
  }

  lemma PhiShapeHolds(ps: Pointers, p: Program, plan: Plan, live: map<Label, set<CFGUse>>, m: Label, n: Label, pred: Label)
    requires Given(ps, p, plan, live) && IsEdge(p, m, n) && StandsFor(p, plan.headers, m, n, pred)
    ensures PhiShape(p, Transformed(p, plan, live), ViewOf(ps, p, plan, live), m, n, pred)
  {
    assert InGiven(0);
    assert BlockOk(p, p.blocks[m]);
    FixedAt(p, plan, live, n);
    OldPhisHold(ps, p, plan, live, m, n, pred);
    LivePhisHold(ps, p, plan, live, m, n, pred);
  }

  lemma LivePhisHold(ps: Pointers, p: Program, plan: Plan, live: map<Label, set<CFGUse>>, m: Label, n: Label, pred: Label)
    requires ps.Acyclic() && ProgramOk(p) && PlanOk(p, plan) && n != p.entry
    requires IsEdge(p, m, n) && StandsFor(p, plan.headers, m, n, pred)
    requires n in Instrumented(p, plan).blocks
    ensures LivePhisRead(FixedBlock(Instrumented(p, plan), NodesOf(p, plan, live), n).phis, ViewOf(ps, p, plan, live), n, pred)
  {
    ViewAt(ps, p, plan, live, n);
    NodeAt(p, plan, live, n);
    StandInIsPred(p, plan, m, n, pred);
    forall v | v in AnyAt(live, n)
      ensures ReadsFrom(FixedBlock(Instrumented(p, plan), NodesOf(p, plan, live), n).phis, LivePhi(v, n), pred,
                        Use(Mapped(NodesOf(p, plan, live), pred, v)))
    {
      NewPhiReads(Instrumented(p, plan), NodesOf(p, plan, live), n, v, pred);
    }
  }

  lemma OldPhisHold(ps: Pointers, p: Program, plan: Plan, live: map<Label, set<CFGUse>>, m: Label, n: Label, pred: Label)
    requires ps.Acyclic() && ProgramOk(p) && PlanOk(p, plan) && LiveOk(ps, p, live) && n != p.entry
    requires IsEdge(p, m, n) && StandsFor(p, plan.headers, m, n, pred)
    requires n in Instrumented(p, plan).blocks
    ensures OldPhis(p.blocks[n].phis, FixedBlock(Instrumented(p, plan), NodesOf(p, plan, live), n).phis,
                    ViewOf(ps, p, plan, live), m, pred)
  {
    forall x | x in p.blocks[n].phis
      ensures m in p.blocks[n].phis[x]
      ensures ReadsFrom(FixedBlock(Instrumented(p, plan), NodesOf(p, plan, live), n).phis, x, pred,
                        Through(ViewOf(ps, p, plan, live), pred, p.blocks[n].phis[x][m]))
    {
      assert m in p.blocks[n].phis[x] && n !in plan.headers && pred == Renamed(p.entry, m);
      OldPhiShape(ps, p, plan, live, m, n, x);
    }
  }

  lemma OldPhiShape(ps: Pointers, p: Program, plan: Plan, live: map<Label, set<CFGUse>>, m: Label, n: Label, x: Value)
    requires ps.Acyclic() && ProgramOk(p) && LiveOk(ps, p, live)
    requires n in p.blocks && n != p.entry && x in p.blocks[n].phis && m in p.blocks[n].phis[x]
    ensures var q := Instrumented(p, plan);
            && n in q.blocks
            && ReadsFrom(FixedBlock(q, NodesOf(p, plan, live), n).phis, x, Renamed(p.entry, m),
                         Through(ViewOf(ps, p, plan, live), Renamed(p.entry, m), p.blocks[n].phis[x][m]))
  {
    FixedAt(p, plan, live, n);
    NodeAt(p, plan, live, n);
    var o := p.blocks[n].phis[x][m];
    if o.Use? {
      PhiOperandRecorded(ps, p, live, m, n, x);
    }
    FixIsThrough(ps, p, plan, live, n, Renamed(p.entry, m), o);
    OldPhiOf(p, plan, NodesOf(p, plan, live), m, n, x);
  }

  lemma FixIsThrough(ps: Pointers, p: Program, plan: Plan, live: map<Label, set<CFGUse>>, n: Label, pred: Label, o: Operand)
    requires ps.Acyclic() && p.entry in p.blocks
    requires o.Use? ==> o.v in LivePhis(NodesOf(p, plan, live), n)
    ensures FixOperand(NodesOf(p, plan, live), n, pred, o) == Through(ViewOf(ps, p, plan, live), pred, o)
  {
  }

  lemma PhiOperandRecorded(ps: Pointers, p: Program, live: map<Label, set<CFGUse>>, m: Label, n: Label, x: Value)
    requires ps.Acyclic() && LiveOk(ps, p, live) && n in p.blocks && x in p.blocks[n].phis
    requires m in p.blocks[n].phis[x] && p.blocks[n].phis[x][m].Use?
    ensures p.blocks[n].phis[x][m].v in PhiOnlyValues(LiveAt(live, n))
  {
    PhiOperandNeeded(ps, p.blocks[n].phis, x, m);
  }

  lemma OldPhiOf(p: Program, plan: Plan, nodes: Nodes, m: Label, n: Label, x: Value)
    requires ProgramOk(p) && n in p.blocks && n != p.entry && x in p.blocks[n].phis && m in p.blocks[n].phis[x]
    requires n in Instrumented(p, plan).blocks && Instrumented(p, plan).blocks[n] == InstrumentedBlock(p, plan, n)
    ensures ReadsFrom(FixedBlock(Instrumented(p, plan), nodes, n).phis, x, Renamed(p.entry, m),
                      FixOperand(nodes, n, Renamed(p.entry, m), p.blocks[n].phis[x][m]))
  {
    var q := Instrumented(p, plan);
    var inc := p.blocks[n].phis[x];
    assert q.blocks[n].phis[x] == RenameIncoming(p.entry, inc);
    NoInsertedIncoming(p, n, x);
    RenamedIncoming(p.entry, inc, m);
    assert BlockOk(p, p.blocks[n]);
    OldPhiReads(q, nodes, n, x, Renamed(p.entry, m));
  }

  lemma NoInsertedIncoming(p: Program, n: Label, x: Value)
    requires ProgramOk(p) && n in p.blocks && x in p.blocks[n].phis
    ensures NoCREntry !in p.blocks[n].phis[x]
  {
  }

  // ----- the checkpoint blocks -----

  lemma {:induction false} SavesStaySaves(any: set<Value>, l: Label, body: seq<Instr>)
    requires forall i :: i in body ==> i.dst.None? && IsSave(i.op)
    ensures forall i :: i in SubBody(any, l, body) ==> i.dst.None? && IsSave(i.op)
  {
    forall i | i in SubBody(any, l, body)
      ensures i.dst.None? && IsSave(i.op)
    {
      var k :| 0 <= k < |body| && SubBody(any, l, body)[k] == i;
      assert body[k] in body;
    }
  }

  lemma CheckpointCodeHolds(p: Program, plan: Plan, live: map<Label, set<CFGUse>>, h: Label)
    requires ProgramOk(p) && PlanOk(p, plan) && h in plan.headers
    ensures CheckpointCode(Transformed(p, plan, live), AnyAt(live, h), h)
  {
    var l := CheckpointOf(h);
    assert h.Orig? && Orig(l.id) == h;
    InsertedBlocks(p, plan, h);
    FixedAt(p, plan, live, l);
    NodeAt(p, plan, live, l);
    SavesStaySaves(AnyAt(live, h), l, EmittedFor(plan, h).saves);
  }

  lemma CheckpointNamesHold(ps: Pointers, p: Program, plan: Plan, live: map<Label, set<CFGUse>>, h: Label)
    requires ps.Acyclic() && ProgramOk(p) && PlanOk(p, plan) && h in plan.headers
    requires CheckpointOf(h) in Transformed(p, plan, live).blocks
    ensures CheckpointNames(p, Transformed(p, plan, live), ViewOf(ps, p, plan, live), h)
  {
    var view, l := ViewOf(ps, p, plan, live), CheckpointOf(h);
    assert h.Orig? && Orig(l.id) == h;
    InsertedBlocks(p, plan, h);
    ViewAt(ps, p, plan, live, h);
    forall v | v in view.Any(h) ensures view.name(l, v) == LivePhi(v, l) {
      NameAt(ps, p, plan, live, l, v);
    }
    forall m, v | IsEdge(p, m, h) && v in view.Any(h)
      ensures ReadsFrom(Transformed(p, plan, live).blocks[l].phis, LivePhi(v, l), Renamed(p.entry, m),
                        Use(view.name(Renamed(p.entry, m), v)))
    {
      CheckpointPhiReads(ps, p, plan, live, m, h, v);
    }
  }

  lemma CheckpointPhiReads(ps: Pointers, p: Program, plan: Plan, live: map<Label, set<CFGUse>>, m: Label, h: Label, v: Value)
    requires ps.Acyclic() && ProgramOk(p) && PlanOk(p, plan) && h in plan.headers && IsEdge(p, m, h)
    requires v in AnyAt(live, h) && CheckpointOf(h) in Transformed(p, plan, live).blocks
    ensures ReadsFrom(Transformed(p, plan, live).blocks[CheckpointOf(h)].phis, LivePhi(v, CheckpointOf(h)), Renamed(p.entry, m),
                      Use(ViewOf(ps, p, plan, live).name(Renamed(p.entry, m), v)))
  {
    var l := CheckpointOf(h);
    assert h.Orig? && Orig(l.id) == h;
    InsertedBlocks(p, plan, h);
    FixedAt(p, plan, live, l);
    NodeAt(p, plan, live, l);
    RenamedPred(p, plan, m, h);
    NewPhiReads(Instrumented(p, plan), NodesOf(p, plan, live), l, v, Renamed(p.entry, m));
  }

  lemma CheckpointShapeHolds(ps: Pointers, p: Program, plan: Plan, live: map<Label, set<CFGUse>>, h: Label)
    requires Given(ps, p, plan, live) && h in plan.headers
    ensures CheckpointShape(p, Transformed(p, plan, live), ViewOf(ps, p, plan, live), h)
  {
    assert InGiven(0);
    ViewAt(ps, p, plan, live, h);
    CheckpointCodeHolds(p, plan, live, h);
    CheckpointNamesHold(ps, p, plan, live, h);
  }

  /** The transformed function simulates the function. */
  lemma ShapeHolds(ps: Pointers, p: Program, plan: Plan, live: map<Label, set<CFGUse>>)
    requires Given(ps, p, plan, live)
    ensures Shape(ps, p, plan.headers, Transformed(p, plan, live), ViewOf(ps, p, plan, live))
  {
    assert InGiven(0);
    var view, t := ViewOf(ps, p, plan, live), Transformed(p, plan, live);
    forall n | n in p.blocks && n != p.entry ensures BodyShape(ps, p, plan.headers, t, view, n) {
      BodyShapeHolds(ps, p, plan, live, n);
    }
    forall m, n, pred | IsEdge(p, m, n) && StandsFor(p, plan.headers, m, n, pred)
      ensures PhiShape(p, t, view, m, n, pred)
    {
      PhiShapeHolds(ps, p, plan, live, m, n, pred);
    }
    OutShapeHolds(ps, p, plan, live);
    EntryShapeHolds(ps, p, plan, live);
    forall h | h in plan.headers ensures CheckpointShape(p, t, view, h) {
      CheckpointShapeHolds(ps, p, plan, live, h);
    }
  }
}
