/**
  After Steps 1 and 2 of `fixDominance` every operand is a constant, or defined in its own
  block, or, in a phi, in the predecessor it belongs to.
 */
module Locality {
  import opened IR
  import opened Pointers
  import opened Cfg
  import opened UseDef
  import opened Transform
  import opened Function
  import opened Simulation
  import opened Rewriting

  /** The operands of a piece of code that it does not define before. */
  function Outside(body: seq<Instr>, term: Term): set<Value> {
    if body == [] then ArgUses(term.args) else ArgUses(body[0].args) + (Outside(body[1..], term) - DstSet(body[0]))
  }

  lemma {:induction false} ArgUsesNeeded(ps: Pointers, os: seq<Operand>)
    requires ps.Acyclic()
    ensures ArgUses(os) <= ArgNeeds(ps, os)
  {
    forall v | v in ArgUses(os) ensures v in ArgNeeds(ps, os) {
      var o :| o in os && o.Use? && o.v == v;
      var i :| 0 <= i < |os| && os[i] == o;
      OperandsNeeded(ps, os, i);
    }
  }

  lemma {:induction false} OutsideNeeded(ps: Pointers, body: seq<Instr>, term: Term)
    requires ps.Acyclic()
    ensures Outside(body, term) <= BodyNeeds(ps, body, term)
  {
    if body == [] {
      ArgUsesNeeded(ps, term.args);
    } else {
      ArgUsesNeeded(ps, body[0].args);
      OutsideNeeded(ps, body[1..], term);
    }
  }

  lemma SubbedArgs(any: set<Value>, l: Label, os: seq<Operand>)
    ensures ArgUses(SubArgs(any, l, os)) <= PhiNames(any, l) + (ArgUses(os) - any)
  {
    forall v | v in ArgUses(SubArgs(any, l, os)) ensures v in PhiNames(any, l) + (ArgUses(os) - any) {
      var o :| o in SubArgs(any, l, os) && o.Use? && o.v == v;
      var i :| 0 <= i < |os| && SubArgs(any, l, os)[i] == o;
      assert os[i] in os;
    }
  }

  /** Code whose operands have been replaced takes from outside the live phis and what was not live. */
  lemma {:induction false} SubbedOutside(any: set<Value>, l: Label, body: seq<Instr>, term: Term)
    ensures Outside(SubBody(any, l, body), SubTerm(any, l, term)) <= PhiNames(any, l) + (Outside(body, term) - any)
                                                                    + (any * Dsts(body))
  {
    if body == [] {
      SubbedArgs(any, l, term.args);
    } else {
      SubbedArgs(any, l, body[0].args);
      SubbedOutside(any, l, body[1..], term);
      assert SubBody(any, l, body)[1..] == SubBody(any, l, body[1..]);
      assert body == [body[0]] + body[1..];
      DstsCons(body[0], body[1..]);
    }
  }

  /** What the code of a block may use: the phis of the block, and in the moved entry code the arguments. */
  ghost predicate CodeLocal(t: Program, l: Label)
    requires l in t.blocks
  {
    BlockLocal(t.blocks[l], if l == NoCREntry then t.args else {})
  }

  predicate BlockLocal(b: Block, args: set<Value>) {
    Outside(b.body, b.term) <= b.phis.Keys + args
  }

  predicate DefinedIn(t: Program, pred: Label, o: Operand) {
    o.Use? ==> pred in t.blocks && o.v in t.blocks[pred].phis.Keys + Dsts(t.blocks[pred].body)
  }

  /** Each operand of a phi is a constant or defined in its predecessor. */
  ghost predicate PhisLocal(t: Program, l: Label)
    requires l in t.blocks
  {
    forall x, pred :: x in t.blocks[l].phis && pred in t.blocks[l].phis[x] ==> DefinedIn(t, pred, t.blocks[l].phis[x][pred])
  }

  /** The emitted code uses live values in the checkpoint block and its own values in the restart block. */
  ghost predicate EmittedLocal(plan: Plan, live: map<Label, set<CFGUse>>) {
    forall h :: h in plan.headers ==>
      var e := EmittedFor(plan, h);
      && Outside(e.saves, Jump(h)) <= AnyAt(live, h)
      && Outside(e.restores, Jump(h)) == {}
      && forall v :: v in AnyAt(live, h) ==> v in e.restored && e.restored[v] in Dsts(e.restores)
  }

  /** Phis have operands for edges only. */
  predicate PhisExact(p: Program) {
    forall n, x, m :: n in p.blocks && x in p.blocks[n].phis && m in p.blocks[n].phis[x] ==>
      m in p.blocks && n in TermTargets(p.blocks[m].term)
  }

  // ----- lookups are defined -----

  /** Every lookup of Step 2: a value live on an edge has a mapping in the block the edge leaves, defined there. */
  lemma LookupDefined(ps: Pointers, p: Program, plan: Plan, live: map<Label, set<CFGUse>>, m: Label, n: Label, v: Value)
    requires Given(ps, p, plan, live) && IsEdge(p, m, n)
    requires v in EdgeSet(ps, p, ViewOf(ps, p, plan, live), m, n)
    ensures var nodes := NodesOf(p, plan, live);
            var l := Renamed(p.entry, m);
            HasMapping(nodes, l, v) && DefinedIn(Transformed(p, plan, live), l, Use(Mapped(nodes, l, v)))
  {
    assert InGiven(0);
    var view := ViewOf(ps, p, plan, live);
    OutShapeHolds(ps, p, plan, live);
    assert v in view.Out(m);
    ViewAt(ps, p, plan, live, m);
    OutIsLiveOrDefined(ps, p, live, m, v);
    if m == p.entry {
      EntryLookup(ps, p, plan, live, v);
    } else {
      OriginalLookup(ps, p, plan, live, m, v);
    }
  }

  lemma EntryLookup(ps: Pointers, p: Program, plan: Plan, live: map<Label, set<CFGUse>>, v: Value)
    requires Given(ps, p, plan, live) && v in OutSet(ps, p, live, p.entry)
    requires v in AnyAt(live, p.entry) || v in BlockDefs(p.blocks[p.entry], p.args)
    ensures var nodes := NodesOf(p, plan, live);
            HasMapping(nodes, NoCREntry, v) && DefinedIn(Transformed(p, plan, live), NoCREntry, Use(Mapped(nodes, NoCREntry, v)))
  {
    assert InGiven(0);
    OutOfEntryDefined(ps, p, live, v);
    MovedLookup(p, plan, live, v);
  }

  lemma OutOfEntryDefined(ps: Pointers, p: Program, live: map<Label, set<CFGUse>>, v: Value)
    requires SSA(ps, p) && ProgramOk(p) && LiveOk(ps, p, live) && v in OutSet(ps, p, live, p.entry)
    requires v in AnyAt(live, p.entry) || v in BlockDefs(p.blocks[p.entry], p.args)
    ensures v in Dsts(p.blocks[p.entry].body)
  {
    NothingLiveAtEntry(ps, p, live);
    if v in p.args {
      ArgsStayInEntry(ps, p, live, v);
    }
  }

  lemma ArgsStayInEntry(ps: Pointers, p: Program, live: map<Label, set<CFGUse>>, v: Value)
    requires SSA(ps, p) && ProgramOk(p) && LiveOk(ps, p, live) && v in p.args
    ensures v !in OutSet(ps, p, live, p.entry)
  {
    if v in OutSet(ps, p, live, p.entry) {
      var s := OutIsLive(ps, p, live, p.entry, v);
      assert false;
    }
  }

  lemma MovedLookup(p: Program, plan: Plan, live: map<Label, set<CFGUse>>, v: Value)
    requires ProgramOk(p) && v in Dsts(p.blocks[p.entry].body)
    ensures var nodes := NodesOf(p, plan, live);
            HasMapping(nodes, NoCREntry, v) && DefinedIn(Transformed(p, plan, live), NoCREntry, Use(Mapped(nodes, NoCREntry, v)))
  {
    MovedMapping(p, plan, live, v);
    MovedDefines(p, plan, live, v);
  }

  lemma MovedMapping(p: Program, plan: Plan, live: map<Label, set<CFGUse>>, v: Value)
    requires ProgramOk(p) && v in Dsts(p.blocks[p.entry].body)
    ensures HasMapping(NodesOf(p, plan, live), NoCREntry, v) && Mapped(NodesOf(p, plan, live), NoCREntry, v) == v
  {
    NodeAt(p, plan, live, NoCREntry);
  }

  lemma MovedDefines(p: Program, plan: Plan, live: map<Label, set<CFGUse>>, v: Value)
    requires ProgramOk(p) && v in Dsts(p.blocks[p.entry].body)
    ensures DefinedIn(Transformed(p, plan, live), NoCREntry, Use(v))
  {
    EntryCodeMoved(p, plan, live);
    SubbedDsts({}, NoCREntry, p.blocks[p.entry].body);
  }

  lemma {:induction false} SubbedDsts(any: set<Value>, l: Label, body: seq<Instr>)
    ensures Dsts(SubBody(any, l, body)) == Dsts(body)
  {
    forall v ensures v in Dsts(SubBody(any, l, body)) <==> v in Dsts(body) {
      if v in Dsts(body) {
        var i :| i in body && i.dst.Some? && i.dst.value == v;
        var k :| 0 <= k < |body| && body[k] == i;
        assert SubBody(any, l, body)[k] in SubBody(any, l, body);
      }
      if v in Dsts(SubBody(any, l, body)) {
        var i :| i in SubBody(any, l, body) && i.dst.Some? && i.dst.value == v;
        var k :| 0 <= k < |body| && SubBody(any, l, body)[k] == i;
        assert body[k] in body;
      }
    }
  }

  lemma OriginalLookup(ps: Pointers, p: Program, plan: Plan, live: map<Label, set<CFGUse>>, m: Label, v: Value)
    requires Given(ps, p, plan, live) && m in p.blocks && m != p.entry
    requires v in AnyAt(live, m) || v in BlockDefs(p.blocks[m], {})
    ensures var nodes := NodesOf(p, plan, live);
            HasMapping(nodes, m, v) && DefinedIn(Transformed(p, plan, live), m, Use(Mapped(nodes, m, v)))
  {
    assert InGiven(0);
    NodeAt(p, plan, live, m);
    FixedAt(p, plan, live, m);
    PhisOfOriginal(p, plan, live, m);
    SubbedDsts(AnyAt(live, m), m, p.blocks[m].body);
    OriginalBlock(p, plan, live, m);
  }

  /** The phis of a block of the function in the result. */
  lemma PhisOfOriginal(p: Program, plan: Plan, live: map<Label, set<CFGUse>>, n: Label)
    requires ProgramOk(p) && n in p.blocks && n != p.entry
    ensures var t := Transformed(p, plan, live);
            n in t.blocks && t.blocks[n].phis.Keys == p.blocks[n].phis.Keys + PhiNames(AnyAt(live, n), n)
  {
    FixedAt(p, plan, live, n);
    NodeAt(p, plan, live, n);
    NewPhiKeys(Instrumented(p, plan), NodesOf(p, plan, live), n);
  }

  lemma NewPhiKeys(q: Program, nodes: Nodes, l: Label)
    ensures NewPhis(q, nodes, l).Keys == PhiNames(LiveAny(nodes, l), l)
  {
  }

  // ----- the code of each block -----

  lemma OriginalCodeLocal(ps: Pointers, p: Program, plan: Plan, live: map<Label, set<CFGUse>>, n: Label)
    requires Given(ps, p, plan, live) && n in p.blocks && n != p.entry
    ensures n in Transformed(p, plan, live).blocks && CodeLocal(Transformed(p, plan, live), n)
  {
    assert InGiven(0);
    var b, any := p.blocks[n], AnyAt(live, n);
    OriginalBlock(p, plan, live, n);
    PhisOfOriginal(p, plan, live, n);
    var term := RedirectTerm(plan.headers, b.term);
    SubbedOutside(any, n, b.body, term);
    OutsideNeeded(ps, b.body, term);
    TermOnlyArgs(ps, b.body, b.term, term);
    LiveOfBlock(ps, p, live, n);
    BodyLiveSplit(ps, b.body, b.term, OutSet(ps, p, live, n));
  }

  lemma {:induction false} TermOnlyArgs(ps: Pointers, body: seq<Instr>, s: Term, t: Term)
    requires ps.Acyclic() && s.args == t.args
    ensures BodyNeeds(ps, body, s) == BodyNeeds(ps, body, t)
  {
    if body != [] { TermOnlyArgs(ps, body[1..], s, t); }
  }

  lemma EntryCodeLocal(ps: Pointers, p: Program, plan: Plan, live: map<Label, set<CFGUse>>)
    requires Given(ps, p, plan, live)
    ensures var t := Transformed(p, plan, live);
            p.entry in t.blocks && NoCREntry in t.blocks && CodeLocal(t, p.entry) && CodeLocal(t, NoCREntry)
  {
    assert InGiven(0);
    EntryBlocksHold(ps, p, plan, live);
    MovedCodeLocal(ps, p, live, plan.headers);
    DispatchOutside(plan.headers);
  }

  lemma MovedCodeLocal(ps: Pointers, p: Program, live: map<Label, set<CFGUse>>, headers: seq<Label>)
    requires SSA(ps, p) && ProgramOk(p) && LiveOk(ps, p, live)
    ensures var b := p.blocks[p.entry];
            BlockLocal(Block(map[], SubBody({}, NoCREntry, b.body), SubTerm({}, NoCREntry, RedirectTerm(headers, b.term))), p.args)
  {
    EntryNeedsArgs(ps, p, live);
    MovedLocal(ps, p.blocks[p.entry].body, p.blocks[p.entry].term, OutSet(ps, p, live, p.entry), p.args, headers);
  }

  lemma MovedLocal(ps: Pointers, body: seq<Instr>, term: Term, out: set<Value>, args: set<Value>, headers: seq<Label>)
    requires ps.Acyclic() && BodyLive(ps, body, term, out) <= args
    ensures BlockLocal(Block(map[], SubBody({}, NoCREntry, body), SubTerm({}, NoCREntry, RedirectTerm(headers, term))), args)
  {
    SubbedOutside({}, NoCREntry, body, RedirectTerm(headers, term));
    OutsideNeeded(ps, body, RedirectTerm(headers, term));
    TermOnlyArgs(ps, body, term, RedirectTerm(headers, term));
    BodyLiveSplit(ps, body, term, out);
  }

  lemma DispatchOutside(headers: seq<Label>)
    ensures Outside(DispatchBlock(headers).body, DispatchBlock(headers).term) == {}
  {
    var d := DispatchBlock(headers);
    assert d.body[1..] == [];
    assert Outside(d.body, d.term) == ArgUses([]) + (ArgUses([Use(ResumeLabel)]) - {ResumeLabel});
  }

  lemma CheckpointCodeLocal(ps: Pointers, p: Program, plan: Plan, live: map<Label, set<CFGUse>>, h: Label)
    requires Given(ps, p, plan, live) && EmittedLocal(plan, live) && h in plan.headers
    ensures CheckpointOf(h) in Transformed(p, plan, live).blocks && CodeLocal(Transformed(p, plan, live), CheckpointOf(h))
  {
    assert InGiven(0);
    var l := CheckpointOf(h);
    InsertedBlocks(p, plan, h);
    assert h.Orig? && Orig(l.id) == h;
    FixedAt(p, plan, live, l);
    NodeAt(p, plan, live, l);
    NewPhiKeys(Instrumented(p, plan), NodesOf(p, plan, live), l);
    var saves := EmittedFor(plan, h).saves;
    SubbedOutside(AnyAt(live, h), l, saves, Jump(h));
    assert Dsts(saves) == {};
  }

  lemma RestartCodeLocal(ps: Pointers, p: Program, plan: Plan, live: map<Label, set<CFGUse>>, h: Label)
    requires Given(ps, p, plan, live) && EmittedLocal(plan, live) && h in plan.headers
    ensures RestartOf(h) in Transformed(p, plan, live).blocks && CodeLocal(Transformed(p, plan, live), RestartOf(h))
  {
    assert InGiven(0);
    RestartBlock(p, plan, live, h);
    RestoresLocal(EmittedFor(plan, h).restores, RestartOf(h), h);
    InsertedBlocks(p, plan, h);
  }

  lemma RestoresLocal(restores: seq<Instr>, l: Label, h: Label)
    requires Outside(restores, Jump(h)) == {}
    ensures BlockLocal(Block(map[], SubBody({}, l, restores), SubTerm({}, l, Jump(h))), {})
  {
    SubbedOutside({}, l, restores, Jump(h));
  }

  lemma RestartBlock(p: Program, plan: Plan, live: map<Label, set<CFGUse>>, h: Label)
    requires ProgramOk(p) && PlanOk(p, plan) && h in plan.headers
    ensures var t := Transformed(p, plan, live);
            var l := RestartOf(h);
            l in t.blocks && t.blocks[l] == Block(map[], SubBody({}, l, EmittedFor(plan, h).restores), SubTerm({}, l, Jump(h)))
  {
    var l := RestartOf(h);
    InsertedBlocks(p, plan, h);
    assert h.Orig? && Orig(l.id) == h;
    FixedAt(p, plan, live, l);
    NodeAt(p, plan, live, l);
    NothingToFix(Instrumented(p, plan), NodesOf(p, plan, live), l);
  }

  // ----- phi operands -----

  lemma NewPhiLocal(ps: Pointers, p: Program, plan: Plan, live: map<Label, set<CFGUse>>, l: Label, h: Label, v: Value, pred: Label)
    requires Given(ps, p, plan, live) && EmittedLocal(plan, live) && h in p.blocks && v in AnyAt(live, h)
    requires l == h || (h in plan.headers && l == CheckpointOf(h))
    requires pred in Preds(Instrumented(p, plan), l)
    ensures DefinedIn(Transformed(p, plan, live), pred, Use(Mapped(NodesOf(p, plan, live), pred, v)))
  {
    assert InGiven(0);
    PredOrigin(p, plan, l, h, pred);
    if pred == CheckpointOf(h) && h in plan.headers {
      CheckpointDefines(p, plan, live, h, v);
    } else if pred == RestartOf(h) && h in plan.headers {
      RestartDefines(p, plan, live, h, v);
    } else {
      var m :| IsEdge(p, m, h) && pred == Renamed(p.entry, m);
      ViewAt(ps, p, plan, live, h);
      LookupDefined(ps, p, plan, live, m, h, v);
    }
  }

  lemma CheckpointDefines(p: Program, plan: Plan, live: map<Label, set<CFGUse>>, h: Label, v: Value)
    requires ProgramOk(p) && PlanOk(p, plan) && h in plan.headers && v in AnyAt(live, h)
    ensures DefinedIn(Transformed(p, plan, live), CheckpointOf(h), Use(Mapped(NodesOf(p, plan, live), CheckpointOf(h), v)))
  {
    var l := CheckpointOf(h);
    InsertedBlocks(p, plan, h);
    assert h.Orig? && Orig(l.id) == h;
    FixedAt(p, plan, live, l);
    NodeAt(p, plan, live, l);
    NewPhiKeys(Instrumented(p, plan), NodesOf(p, plan, live), l);
  }

  lemma RestartDefines(p: Program, plan: Plan, live: map<Label, set<CFGUse>>, h: Label, v: Value)
    requires ProgramOk(p) && PlanOk(p, plan) && h in plan.headers && v in AnyAt(live, h)
    requires EmittedLocal(plan, live)
    ensures DefinedIn(Transformed(p, plan, live), RestartOf(h), Use(Mapped(NodesOf(p, plan, live), RestartOf(h), v)))
  {
    var l := RestartOf(h);
    InsertedBlocks(p, plan, h);
    assert h.Orig? && Orig(l.id) == h;
    RestartBlock(p, plan, live, h);
    NodeAt(p, plan, live, l);
    SubbedDsts({}, l, EmittedFor(plan, h).restores);
  }

  lemma UnredirectedTarget(headers: seq<Label>, t: Term, l: Label)
    requires l in TermTargets(RedirectTerm(headers, t))
    ensures exists n :: n in TermTargets(t) && Redirect(headers, n) == l
  {
    if l == Redirect(headers, t.default.value) {
      assert t.default.value in TermTargets(t);
    } else {
      var c :| c in RedirectCases(headers, t.cases) && c.1 == l;
      var i :| 0 <= i < |t.cases| && RedirectCases(headers, t.cases)[i] == c;
      assert t.cases[i] in t.cases;
      assert t.cases[i].1 in TermTargets(t) && Redirect(headers, t.cases[i].1) == l;
    }
  }

  /** Where control comes from in the instrumented function. */
  lemma PredOrigin(p: Program, plan: Plan, l: Label, h: Label, pred: Label)
    requires ProgramOk(p) && PlanOk(p, plan) && h in p.blocks && h.Orig?
    requires l == h || (h in plan.headers && l == CheckpointOf(h))
    requires pred in Preds(Instrumented(p, plan), l)
    ensures || (h in plan.headers && (pred == CheckpointOf(h) || pred == RestartOf(h)))
            || exists m :: IsEdge(p, m, h) && pred == Renamed(p.entry, m)
  {
    var q := Instrumented(p, plan);
    match pred
    case NoCREntry =>
      UnredirectedTarget(plan.headers, p.blocks[p.entry].term, l);
      var n :| n in TermTargets(p.blocks[p.entry].term) && Redirect(plan.headers, n) == l;
      RedirectInjective(p, plan, n, h, l);
      assert IsEdge(p, p.entry, h);
    case Checkpoint(id) => assert l == Orig(id); HeaderOf(p, plan, pred);
    case Restart(id) => assert l == Orig(id); HeaderOf(p, plan, pred);
    case Orig(_) =>
      if pred == p.entry {
        DispatchTargets(p, plan, l);
        assert false;
      } else {
        UnredirectedTarget(plan.headers, p.blocks[pred].term, l);
        var n :| n in TermTargets(p.blocks[pred].term) && Redirect(plan.headers, n) == l;
        assert BlockOk(p, p.blocks[pred]);
        RedirectInjective(p, plan, n, h, l);
        assert IsEdge(p, pred, h);
      }
  }

  lemma HeaderOf(p: Program, plan: Plan, pred: Label)
    requires ProgramOk(p) && PlanOk(p, plan)
    requires pred in AllLabels(p, plan) && (pred.Checkpoint? || pred.Restart?)
    ensures Orig(pred.id) in plan.headers
  {
    assert pred in InsertedLabels(plan.headers);
    var h :| h in plan.headers && (pred == CheckpointOf(h) || pred == RestartOf(h));
    assert h.Orig?;
  }

  lemma RedirectInjective(p: Program, plan: Plan, n: Label, h: Label, l: Label)
    requires n.Orig? && h.Orig? && Redirect(plan.headers, n) == l
    requires l == h || (h in plan.headers && l == CheckpointOf(h))
    ensures n == h
  {
  }

  lemma DispatchTargets(p: Program, plan: Plan, l: Label)
    requires l in TermTargets(DispatchBlock(plan.headers).term)
    requires forall h :: h in plan.headers ==> h.Orig?
    ensures l == NoCREntry || l.Restart?
  {
    var t := DispatchBlock(plan.headers).term;
    if l != NoCREntry {
      var c :| c in t.cases && c.1 == l;
      var k :| 0 <= k < |plan.headers| && t.cases[k] == c;
      assert plan.headers[k] in plan.headers;
    }
  }

  /** The predecessors named by a phi that was there. */
  lemma RenamedKey(entry: Label, inc: Incoming, pred: Label)
    requires pred in RenameIncoming(entry, inc) && NoCREntry !in inc
    ensures exists m :: m in inc && pred == Renamed(entry, m) && RenameIncoming(entry, inc)[pred] == inc[m]
  {
    if pred == NoCREntry {
      assert entry in inc;
    } else {
      assert pred in inc && pred != entry;
    }
  }

  lemma FixedLookup(nodes: Nodes, n: Label, pred: Label, o: Operand)
    requires o.Use? && o.v in LivePhis(nodes, n)
    ensures FixOperand(nodes, n, pred, o) == Use(Mapped(nodes, pred, o.v))
  {
  }

  lemma FixedConstant(nodes: Nodes, n: Label, pred: Label, o: Operand)
    requires o.Const?
    ensures FixOperand(nodes, n, pred, o) == o
  {
  }

  /** A phi operand is recorded in the node's live set, so Step 2 looks it up. */
  lemma RecordedInNode(ps: Pointers, p: Program, plan: Plan, live: map<Label, set<CFGUse>>, m: Label, n: Label, x: Value)
    requires ps.Acyclic() && ProgramOk(p) && LiveOk(ps, p, live) && n in p.blocks && n != p.entry && x in p.blocks[n].phis
    requires m in p.blocks[n].phis[x] && p.blocks[n].phis[x][m].Use?
    ensures p.blocks[n].phis[x][m].v in LivePhis(NodesOf(p, plan, live), n)
  {
    PhiOperandRecorded(ps, p, live, m, n, x);
    FixedAt(p, plan, live, n);
    NodeAt(p, plan, live, n);
  }

  lemma OldPhiLookup(ps: Pointers, p: Program, plan: Plan, live: map<Label, set<CFGUse>>, m: Label, n: Label, x: Value)
    requires Given(ps, p, plan, live) && n in p.blocks && n != p.entry && x in p.blocks[n].phis
    requires m in p.blocks[n].phis[x] && IsEdge(p, m, n)
    ensures DefinedIn(Transformed(p, plan, live), Renamed(p.entry, m),
                      FixOperand(NodesOf(p, plan, live), n, Renamed(p.entry, m), p.blocks[n].phis[x][m]))
  {
    assert InGiven(0);
    var o := p.blocks[n].phis[x][m];
    if o.Use? {
      RecordedInNode(ps, p, plan, live, m, n, x);
      PhiOperandNeeded(ps, p.blocks[n].phis, x, m);
      LookupDefined(ps, p, plan, live, m, n, o.v);
      FixedLookup(NodesOf(p, plan, live), n, Renamed(p.entry, m), o);
    } else {
      FixedConstant(NodesOf(p, plan, live), n, Renamed(p.entry, m), o);
    }
  }

  lemma OldPhiLocal(ps: Pointers, p: Program, plan: Plan, live: map<Label, set<CFGUse>>, n: Label, x: Value, pred: Label)
    requires Given(ps, p, plan, live) && PhisExact(p) && n in p.blocks && n != p.entry && x in p.blocks[n].phis
    requires pred in RenameIncoming(p.entry, p.blocks[n].phis[x])
    ensures DefinedIn(Transformed(p, plan, live), pred,
                      FixOperand(NodesOf(p, plan, live), n, pred, RenameIncoming(p.entry, p.blocks[n].phis[x])[pred]))
  {
    assert InGiven(0);
    var m := OldKey(p, n, x, pred);
    OldPhiLookup(ps, p, plan, live, m, n, x);
  }

  lemma OldKey(p: Program, n: Label, x: Value, pred: Label) returns (m: Label)
    requires ProgramOk(p) && PhisExact(p) && n in p.blocks && x in p.blocks[n].phis
    requires pred in RenameIncoming(p.entry, p.blocks[n].phis[x])
    ensures m in p.blocks[n].phis[x] && IsEdge(p, m, n) && pred == Renamed(p.entry, m)
    ensures RenameIncoming(p.entry, p.blocks[n].phis[x])[pred] == p.blocks[n].phis[x][m]
  {
    var inc := p.blocks[n].phis[x];
    NoInsertedIncoming(p, n, x);
    RenamedKey(p.entry, inc, pred);
    m :| m in inc && pred == Renamed(p.entry, m) && RenameIncoming(p.entry, inc)[pred] == inc[m];
  }

  lemma OriginalPhisLocal(ps: Pointers, p: Program, plan: Plan, live: map<Label, set<CFGUse>>, n: Label)
    requires Given(ps, p, plan, live) && PhisExact(p) && EmittedLocal(plan, live) && n in p.blocks && n != p.entry
    ensures n in Transformed(p, plan, live).blocks && PhisLocal(Transformed(p, plan, live), n)
  {
    assert InGiven(0);
    var t, q, nodes := Transformed(p, plan, live), Instrumented(p, plan), NodesOf(p, plan, live);
    FixedAt(p, plan, live, n);
    NodeAt(p, plan, live, n);
    NewPhiKeys(q, nodes, n);
    forall x, pred | x in t.blocks[n].phis && pred in t.blocks[n].phis[x]
      ensures DefinedIn(t, pred, t.blocks[n].phis[x][pred])
    {
      if x in PhiNames(AnyAt(live, n), n) {
        NewPhiOperand(q, nodes, n, x, pred);
        NewPhiLocal(ps, p, plan, live, n, n, x.of, pred);
      } else {
        OldPhiLocal(ps, p, plan, live, n, x, pred);
      }
    }
  }

  lemma NewPhiOperand(q: Program, nodes: Nodes, l: Label, x: Value, pred: Label)
    requires l in q.blocks && x in PhiNames(LiveAny(nodes, l), l)
    requires x in FixedBlock(q, nodes, l).phis && pred in FixedBlock(q, nodes, l).phis[x]
    ensures x.LivePhi? && x.of in LiveAny(nodes, l) && pred in Preds(q, l)
    ensures FixedBlock(q, nodes, l).phis[x][pred] == Use(Mapped(nodes, pred, x.of))
  {
    assert x in NewPhis(q, nodes, l);
  }

  lemma CheckpointPhisLocal(ps: Pointers, p: Program, plan: Plan, live: map<Label, set<CFGUse>>, h: Label)
    requires Given(ps, p, plan, live) && EmittedLocal(plan, live) && h in plan.headers
    ensures CheckpointOf(h) in Transformed(p, plan, live).blocks && PhisLocal(Transformed(p, plan, live), CheckpointOf(h))
  {
    assert InGiven(0);
    var l := CheckpointOf(h);
    var t, q, nodes := Transformed(p, plan, live), Instrumented(p, plan), NodesOf(p, plan, live);
    InsertedBlocks(p, plan, h);
    assert h.Orig? && Orig(l.id) == h;
    FixedAt(p, plan, live, l);
    NodeAt(p, plan, live, l);
    NewPhiKeys(q, nodes, l);
    forall x, pred | x in t.blocks[l].phis && pred in t.blocks[l].phis[x]
      ensures DefinedIn(t, pred, t.blocks[l].phis[x][pred])
    {
      NewPhiOperand(q, nodes, l, x, pred);
      NewPhiLocal(ps, p, plan, live, l, h, x.of, pred);
    }
  }

  /** Every block of the result keeps to itself: see `CodeLocal` and `PhisLocal`. */
  ghost predicate Located(t: Program) {
    forall l :: l in t.blocks ==> CodeLocal(t, l) && PhisLocal(t, l)
  }

  lemma InsertedLocated(ps: Pointers, p: Program, plan: Plan, live: map<Label, set<CFGUse>>, l: Label)
    requires Given(ps, p, plan, live) && EmittedLocal(plan, live) && l in Transformed(p, plan, live).blocks
    requires l.Checkpoint? || l.Restart?
    ensures CodeLocal(Transformed(p, plan, live), l) && PhisLocal(Transformed(p, plan, live), l)
  {
    var h := InsertedFor(ps, p, plan, live, l);
    if l.Checkpoint? {
      CheckpointCodeLocal(ps, p, plan, live, h);
      CheckpointPhisLocal(ps, p, plan, live, h);
    } else {
      RestartCodeLocal(ps, p, plan, live, h);
      RestartHasNoPhis(ps, p, plan, live, h);
    }
  }

  /** The header an inserted block belongs to. */
  lemma InsertedFor(ps: Pointers, p: Program, plan: Plan, live: map<Label, set<CFGUse>>, l: Label) returns (h: Label)
    requires Given(ps, p, plan, live) && l in AllLabels(p, plan) && (l.Checkpoint? || l.Restart?)
    ensures h in plan.headers && h == Orig(l.id) && l == if l.Checkpoint? then CheckpointOf(h) else RestartOf(h)
  {
    assert InGiven(0);
    HeaderOf(p, plan, l);
    h := Orig(l.id);
  }

  lemma RestartHasNoPhis(ps: Pointers, p: Program, plan: Plan, live: map<Label, set<CFGUse>>, h: Label)
    requires Given(ps, p, plan, live) && h in plan.headers
    ensures RestartOf(h) in Transformed(p, plan, live).blocks && PhisLocal(Transformed(p, plan, live), RestartOf(h))
  {
    assert InGiven(0);
    RestartBlock(p, plan, live, h);
  }

  lemma EntryLocated(ps: Pointers, p: Program, plan: Plan, live: map<Label, set<CFGUse>>, l: Label)
    requires Given(ps, p, plan, live) && (l == p.entry || l == NoCREntry)
    ensures l in Transformed(p, plan, live).blocks
    ensures CodeLocal(Transformed(p, plan, live), l) && PhisLocal(Transformed(p, plan, live), l)
  {
    assert InGiven(0);
    EntryCodeLocal(ps, p, plan, live);
    EntryBlocksHold(ps, p, plan, live);
  }

  lemma TransformedLocated(ps: Pointers, p: Program, plan: Plan, live: map<Label, set<CFGUse>>)
    requires Given(ps, p, plan, live) && PhisExact(p) && EmittedLocal(plan, live)
    ensures Located(Transformed(p, plan, live))
  {
    var t := Transformed(p, plan, live);
    forall l | l in t.blocks ensures CodeLocal(t, l) && PhisLocal(t, l) {
      if l == p.entry || l == NoCREntry {
        EntryLocated(ps, p, plan, live, l);
      } else if l.Orig? {
        OriginalCodeLocal(ps, p, plan, live, l);
        OriginalPhisLocal(ps, p, plan, live, l);
      } else {
        InsertedLocated(ps, p, plan, live, l);
      }
    }
  }
}
