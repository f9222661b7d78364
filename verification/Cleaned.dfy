/**
  The transformed function is well formed, so that its trivial phis can be removed.
 */
module Cleaned {
  import opened Records
  import opened IR
  import opened Pointers
  import opened Paths
  import opened Cfg
  import opened UseDef
  import opened Transform
  import opened Function
  import opened Simulation
  import opened Rewriting
  import opened Locality
  import opened Emission
  import opened Plans
  import opened Typing
  import opened Transparency
  import opened TrivialPhi

  // ----- strict -----

  lemma LocatedUse(t: Program, watch: Watch, n: Label, v: Value)
    requires n in t.blocks && CodeLocal(t, n) && v in DirectFlow(t, watch).Use(n)
    ensures n == NoCREntry && v in t.args
  {
    DirectBlock(t, watch, n);
  }

  /** What is watched on an edge is a constant or defined in the block the edge leaves. */
  ghost predicate WatchLocal(t: Program, watch: Watch) {
    forall k :: k in watch ==> k.1 in t.blocks && k.1 != t.entry && DefinedIn(t, k.0, watch[k])
  }

  lemma LocatedEdge(t: Program, watch: Watch, m: Label, n: Label, v: Value)
    requires m in t.blocks && n in t.blocks && PhisLocal(t, n) && WatchLocal(t, watch) && v in DirectFlow(t, watch).Edge(m, n)
    ensures v in DirectFlow(t, watch).Def(m)
  {
    DirectEdge(t, watch, m, n);
    DirectBlock(t, watch, m);
    if v in EdgeUses(t.blocks[n].phis, m) {
      var x :| x in t.blocks[n].phis && m in t.blocks[n].phis[x] && t.blocks[n].phis[x][m] == Use(v);
      assert DefinedIn(t, m, t.blocks[n].phis[x][m]);
    } else {
      var k :| k in watch && k.0 == m && k.1 == n && watch[k] == Use(v);
      assert DefinedIn(t, k.0, watch[k]);
    }
  }

  /** When every block keeps to itself, nothing is live into the entry. */
  lemma LocatedIsStrict(t: Program, watch: Watch)
    requires Located(t) && WatchLocal(t, watch) && t.entry in t.blocks && t.entry != NoCREntry
    ensures Strict(DirectFlow(t, watch))
  {
    var f := DirectFlow(t, watch);
    forall v | LiveIn(f, v, f.entry) ensures false {
      var path: Path :| path != [] && path[0] == f.entry && LivePath(f, v, path);
      LivePathShape(f, v, path);
      NotNeeded(t, watch, v, path);
    }
  }

  /** A walk from the entry that does not define `v` does not end in a use of it. */
  lemma NotNeeded(t: Program, watch: Watch, v: Value, path: Path)
    requires Located(t) && WatchLocal(t, watch) && t.entry in t.blocks && t.entry != NoCREntry
    requires FromEntry(DirectFlow(t, watch), path) && forall i :: 0 <= i < |path| - 1 ==> v !in DirectFlow(t, watch).Def(path[i])
    ensures v !in DirectFlow(t, watch).Use(Last(path)) && !(|path| > 1 && v in DirectFlow(t, watch).Edge(path[|path| - 2], Last(path)))
  {
    var f := DirectFlow(t, watch);
    DirectBlock(t, watch, t.entry);
    if v in f.Use(Last(path)) {
      assert Last(path) in t.blocks;
      LocatedUse(t, watch, Last(path), v);
    } else if |path| > 1 && v in f.Edge(path[|path| - 2], Last(path)) {
      assert path[|path| - 2] in t.blocks && Last(path) in t.blocks;
      LocatedEdge(t, watch, path[|path| - 2], Last(path), v);
    }
  }

  // ----- what is watched -----

  /** The blocks of the result from which control enters `n` where it came from `m`. */
  function StandIns(p: Program, headers: seq<Label>, m: Label, n: Label): set<Label> {
    if n in headers then {CheckpointOf(n), RestartOf(n)} else {Renamed(p.entry, m)}
  }

  /** On each edge of the function the values it needs, under the names they have at the end of the block it leaves. */
  function WatchOf(ps: Pointers, p: Program, plan: Plan, live: map<Label, set<CFGUse>>): Watch
    requires ps.Acyclic() && p.entry in p.blocks
  {
    var nodes := NodesOf(p, plan, live);
    map m, n, v, pred | m in p.blocks && n in p.blocks && n in TermTargets(p.blocks[m].term)
                        && v in EdgeValues(ps, p, live, m, n) && pred in StandIns(p, plan.headers, m, n) ::
      (pred, n, v) := Use(Mapped(nodes, pred, v))
  }

  lemma WatchAt(ps: Pointers, p: Program, plan: Plan, live: map<Label, set<CFGUse>>, m: Label, n: Label, v: Value, pred: Label)
    requires ps.Acyclic() && p.entry in p.blocks && IsEdge(p, m, n) && v in EdgeValues(ps, p, live, m, n)
    requires pred in StandIns(p, plan.headers, m, n)
    ensures (pred, n, v) in WatchOf(ps, p, plan, live)
    ensures WatchOf(ps, p, plan, live)[(pred, n, v)] == Use(Mapped(NodesOf(p, plan, live), pred, v))
  {
  }

  lemma WatchFrom(ps: Pointers, p: Program, plan: Plan, live: map<Label, set<CFGUse>>, k: (Label, Label, Value)) returns (m: Label)
    requires ps.Acyclic() && p.entry in p.blocks && k in WatchOf(ps, p, plan, live)
    ensures IsEdge(p, m, k.1) && k.2 in EdgeValues(ps, p, live, m, k.1) && k.0 in StandIns(p, plan.headers, m, k.1)
    ensures WatchOf(ps, p, plan, live)[k] == Use(Mapped(NodesOf(p, plan, live), k.0, k.2))
  {
    m :| m in p.blocks && k.1 in p.blocks && k.1 in TermTargets(p.blocks[m].term)
         && k.2 in EdgeValues(ps, p, live, m, k.1) && k.0 in StandIns(p, plan.headers, m, k.1);
  }

  lemma EdgeValueDefined(ps: Pointers, p: Program, plan: Plan, live: map<Label, set<CFGUse>>, m: Label, n: Label, v: Value, pred: Label)
    requires Given(ps, p, plan, live) && EmittedLocal(plan, live) && IsEdge(p, m, n)
    requires v in EdgeValues(ps, p, live, m, n) && pred in StandIns(p, plan.headers, m, n)
    ensures DefinedIn(Transformed(p, plan, live), pred, Use(Mapped(NodesOf(p, plan, live), pred, v)))
  {
    if n in plan.headers {
      HeaderValueDefined(ps, p, plan, live, m, n, v);
    } else {
      OtherValueDefined(ps, p, plan, live, m, n, v);
    }
  }

  lemma OtherValueDefined(ps: Pointers, p: Program, plan: Plan, live: map<Label, set<CFGUse>>, m: Label, n: Label, v: Value)
    requires Given(ps, p, plan, live) && IsEdge(p, m, n) && v in EdgeValues(ps, p, live, m, n)
    ensures DefinedIn(Transformed(p, plan, live), Renamed(p.entry, m), Use(Mapped(NodesOf(p, plan, live), Renamed(p.entry, m), v)))
  {
    SameEdgeValues(ps, p, plan, live, m, n);
    LookupDefined(ps, p, plan, live, m, n, v);
  }

  lemma SameEdgeValues(ps: Pointers, p: Program, plan: Plan, live: map<Label, set<CFGUse>>, m: Label, n: Label)
    requires ps.Acyclic() && p.entry in p.blocks && n in p.blocks
    ensures EdgeSet(ps, p, ViewOf(ps, p, plan, live), m, n) == EdgeValues(ps, p, live, m, n)
  {
    ViewAt(ps, p, plan, live, n);
  }

  lemma HeaderValueDefined(ps: Pointers, p: Program, plan: Plan, live: map<Label, set<CFGUse>>, m: Label, h: Label, v: Value)
    requires Given(ps, p, plan, live) && EmittedLocal(plan, live) && h in plan.headers && h in p.blocks
    requires v in EdgeValues(ps, p, live, m, h)
    ensures DefinedIn(Transformed(p, plan, live), CheckpointOf(h), Use(Mapped(NodesOf(p, plan, live), CheckpointOf(h), v)))
    ensures DefinedIn(Transformed(p, plan, live), RestartOf(h), Use(Mapped(NodesOf(p, plan, live), RestartOf(h), v)))
  {
    assert InGiven(0);
    NoPhisNoNeeds(ps, p, h, m);
    CheckpointDefines(p, plan, live, h, v);
    RestartDefines(p, plan, live, h, v);
  }

  lemma WatchedLocal(ps: Pointers, p: Program, plan: Plan, live: map<Label, set<CFGUse>>)
    requires Given(ps, p, plan, live) && EmittedLocal(plan, live)
    ensures WatchLocal(Transformed(p, plan, live), WatchOf(ps, p, plan, live))
  {
    var t, watch := Transformed(p, plan, live), WatchOf(ps, p, plan, live);
    forall k | k in watch ensures k.1 in t.blocks && k.1 != t.entry && DefinedIn(t, k.0, watch[k]) {
      var m := WatchFrom(ps, p, plan, live, k);
      EdgeTarget(ps, p, plan, live, m, k.1);
      EdgeValueDefined(ps, p, plan, live, m, k.1, k.2, k.0);
    }
  }

  lemma EdgeTarget(ps: Pointers, p: Program, plan: Plan, live: map<Label, set<CFGUse>>, m: Label, n: Label)
    requires Given(ps, p, plan, live) && IsEdge(p, m, n)
    ensures n in Transformed(p, plan, live).blocks && n != Transformed(p, plan, live).entry
  {
    assert InGiven(0);
    assert BlockOk(p, p.blocks[m]);
    OriginalBlock(p, plan, live, n);
  }

  // ----- one definition each -----

  /** Where a name may be defined in the result. */
  ghost predicate Home(p: Program, l: Label, v: Value)
    requires p.entry in p.blocks
  {
    match v
    case LivePhi(_, at) => l == at
    case Restored(_, at) => l == at
    case ResumeLabel => l == p.entry
    case Src(_) => exists n :: SourceHome(p, n, l, v)
  }

  ghost predicate SourceHome(p: Program, n: Label, l: Label, v: Value)
    requires p.entry in p.blocks
  {
    n in p.blocks && v in BlockDefs(p.blocks[n], ArgsAt(p, n)) &&
    l == if n == p.entry && v in Dsts(p.blocks[n].body) then NoCREntry else n
  }

  lemma OneHome(ps: Pointers, p: Program, l: Label, m: Label, v: Value)
    requires SSA(ps, p) && p.entry in p.blocks && Home(p, l, v) && Home(p, m, v)
    ensures l == m
  {
    if v.Src? {
      var a :| SourceHome(p, a, l, v);
      var b :| SourceHome(p, b, m, v);
      BlockFlow(ps, p, a);
      BlockFlow(ps, p, b);
    }
  }

  lemma OriginalHome(p: Program, plan: Plan, live: map<Label, set<CFGUse>>, n: Label, v: Value)
    requires ProgramOk(p) && n in p.blocks && n != p.entry
    requires n in Transformed(p, plan, live).blocks && v in BlockDefs(Transformed(p, plan, live).blocks[n], {})
    ensures Home(p, n, v)
  {
    PhisOfOriginal(p, plan, live, n);
    OriginalBlock(p, plan, live, n);
    SubbedDsts(AnyAt(live, n), n, p.blocks[n].body);
    assert BlockOk(p, p.blocks[n]);
    if v !in PhiNames(AnyAt(live, n), n) { assert SourceHome(p, n, n, v); }
  }

  lemma EntryHome(p: Program, headers: seq<Label>, v: Value)
    requires ProgramOk(p) && v in BlockDefs(DispatchBlock(headers), p.args)
    ensures Home(p, p.entry, v)
  {
    if v in p.args {
      assert v.Src? && SourceHome(p, p.entry, p.entry, v);
    } else {
      var i :| i in DispatchBlock(headers).body && i.dst == Some(v);
    }
  }

  lemma MovedHome(p: Program, l: Label, term: Term, v: Value)
    requires ProgramOk(p) && v in BlockDefs(Block(map[], SubBody({}, l, p.blocks[p.entry].body), term), {})
    ensures Home(p, NoCREntry, v)
  {
    SubbedDsts({}, l, p.blocks[p.entry].body);
    assert BlockOk(p, p.blocks[p.entry]);
    assert SourceHome(p, p.entry, NoCREntry, v);
  }

  lemma CheckpointDefs(p: Program, plan: Plan, live: map<Label, set<CFGUse>>, h: Label)
    requires ProgramOk(p) && PlanOk(p, plan) && h in plan.headers
    ensures var t, l := Transformed(p, plan, live), CheckpointOf(h);
            && l in t.blocks && Dsts(t.blocks[l].body) == {}
            && t.blocks[l].phis.Keys == PhiNames(AnyAt(live, h), l)
  {
    var l := CheckpointOf(h);
    CheckpointBlock(p, plan, live, h);
    SubbedDsts(AnyAt(live, h), l, EmittedFor(plan, h).saves);
    SavesDefineNothing(plan, h);
    CheckpointPhiKeys(p, plan, live, h);
  }

  lemma SavesDefineNothing(plan: Plan, h: Label)
    requires forall i :: i in EmittedFor(plan, h).saves ==> i.dst.None?
    ensures Dsts(EmittedFor(plan, h).saves) == {}
  {
  }

  lemma CheckpointPhiKeys(p: Program, plan: Plan, live: map<Label, set<CFGUse>>, h: Label)
    requires ProgramOk(p) && PlanOk(p, plan) && h in plan.headers
    ensures var t, l := Transformed(p, plan, live), CheckpointOf(h);
            l in t.blocks && t.blocks[l].phis.Keys == PhiNames(AnyAt(live, h), l)
  {
    var l := CheckpointOf(h);
    InsertedBlocks(p, plan, h);
    assert h.Orig? && Orig(l.id) == h;
    FixedAt(p, plan, live, l);
    NodeAt(p, plan, live, l);
    NewPhiKeys(Instrumented(p, plan), NodesOf(p, plan, live), l);
  }

  /** The restore code defines restored values only. */
  ghost predicate RestoresHome(plan: Plan) {
    forall h :: h in plan.headers ==> RestoredAt(Dsts(EmittedFor(plan, h).restores), RestartOf(h))
  }

  ghost predicate RestoredAt(vs: set<Value>, l: Label) {
    forall v :: v in vs ==> v.Restored? && v.at == l
  }

  lemma RestartDefs(p: Program, plan: Plan, live: map<Label, set<CFGUse>>, h: Label)
    requires ProgramOk(p) && PlanOk(p, plan) && h in plan.headers && RestoresHome(plan)
    ensures var t, l := Transformed(p, plan, live), RestartOf(h);
            && l in t.blocks && t.blocks[l].phis == map[]
            && RestoredAt(Dsts(t.blocks[l].body), l)
  {
    RestartBlock(p, plan, live, h);
    SubbedDsts({}, RestartOf(h), EmittedFor(plan, h).restores);
  }

  lemma DefinedAtEntry(ps: Pointers, p: Program, plan: Plan, live: map<Label, set<CFGUse>>, l: Label, v: Value)
    requires SSA(ps, p) && ProgramOk(p) && LiveOk(ps, p, live) && l in Transformed(p, plan, live).blocks
    requires l == p.entry || l == NoCREntry
    requires v in BlockDefs(Transformed(p, plan, live).blocks[l], if l == p.entry then p.args else {})
    ensures Home(p, l, v)
  {
    EntryBlocksHold(ps, p, plan, live);
    if l == p.entry {
      EntryHome(p, plan.headers, v);
    } else {
      MovedHome(p, NoCREntry, Transformed(p, plan, live).blocks[l].term, v);
    }
  }

  lemma DefinedAtHome(ps: Pointers, p: Program, plan: Plan, live: map<Label, set<CFGUse>>, l: Label, v: Value)
    requires Given(ps, p, plan, live) && RestoresHome(plan) && l in Transformed(p, plan, live).blocks
    requires v in BlockDefs(Transformed(p, plan, live).blocks[l], if l == p.entry then p.args else {})
    ensures Home(p, l, v)
  {
    assert InGiven(0);
    if l == p.entry || l == NoCREntry {
      DefinedAtEntry(ps, p, plan, live, l, v);
    } else if l.Orig? {
      OriginalHome(p, plan, live, l, v);
    } else {
      DefinedInInserted(p, plan, live, l, v);
    }
  }

  lemma DefinedInInserted(p: Program, plan: Plan, live: map<Label, set<CFGUse>>, l: Label, v: Value)
    requires ProgramOk(p) && PlanOk(p, plan) && RestoresHome(plan) && l in AllLabels(p, plan)
    requires l.Checkpoint? || l.Restart?
    requires l in Transformed(p, plan, live).blocks && v in BlockDefs(Transformed(p, plan, live).blocks[l], {})
    ensures Home(p, l, v)
  {
    HeaderOf(p, plan, l);
    if l.Checkpoint? {
      CheckpointDefs(p, plan, live, Orig(l.id));
    } else {
      RestartDefs(p, plan, live, Orig(l.id));
    }
  }

  lemma TransformedSingleDef(ps: Pointers, p: Program, plan: Plan, live: map<Label, set<CFGUse>>, watch: Watch)
    requires Given(ps, p, plan, live) && RestoresHome(plan)
    ensures SingleDef(DirectFlow(Transformed(p, plan, live), watch))
  {
    assert InGiven(0);
    var t := Transformed(p, plan, live);
    var f := DirectFlow(t, watch);
    forall v, m, n | v in f.Def(m) && v in f.Def(n) ensures m == n {
      DirectBlock(t, watch, m);
      DirectBlock(t, watch, n);
      DefinedAtHome(ps, p, plan, live, m, v);
      DefinedAtHome(ps, p, plan, live, n, v);
      OneHome(ps, p, m, n, v);
    }
  }

  // ----- targets and phi operands -----

  lemma FixedTargets(q: Program, nodes: Nodes, l: Label)
    requires l in q.blocks
    ensures TermTargets(FixedBlock(q, nodes, l).term) == TermTargets(q.blocks[l].term)
  {
  }

  lemma RedirectedWithin(p: Program, plan: Plan, t: Term)
    requires ProgramOk(p) && PlanOk(p, plan) && forall s :: s in TermTargets(t) ==> s in p.blocks
    ensures TermTargets(RedirectTerm(plan.headers, t)) <= AllLabels(p, plan)
  {
    forall l | l in TermTargets(RedirectTerm(plan.headers, t)) ensures l in AllLabels(p, plan) {
      UnredirectedTarget(plan.headers, t, l);
      var n :| n in TermTargets(t) && Redirect(plan.headers, n) == l;
      if n in plan.headers { InsertedBlocks(p, plan, n); }
    }
  }

  lemma DispatchWithin(p: Program, plan: Plan)
    requires ProgramOk(p) && PlanOk(p, plan)
    ensures TermTargets(DispatchBlock(plan.headers).term) <= AllLabels(p, plan)
  {
    var t := DispatchBlock(plan.headers).term;
    forall l | l in TermTargets(t) ensures l in AllLabels(p, plan) {
      if l != NoCREntry {
        var c :| c in t.cases && c.1 == l;
        var k :| 0 <= k < |plan.headers| && t.cases[k] == c;
        assert plan.headers[k] in plan.headers;
        InsertedBlocks(p, plan, plan.headers[k]);
      }
    }
  }

  lemma TargetsWithin(p: Program, plan: Plan, live: map<Label, set<CFGUse>>, l: Label)
    requires ProgramOk(p) && PlanOk(p, plan) && l in AllLabels(p, plan)
    ensures TermTargets(Transformed(p, plan, live).blocks[l].term) <= AllLabels(p, plan)
  {
    FixedAt(p, plan, live, l);
    FixedTargets(Instrumented(p, plan), NodesOf(p, plan, live), l);
    InsertedTargetsWithin(p, plan, l);
  }

  lemma InsertedTargetsWithin(p: Program, plan: Plan, l: Label)
    requires ProgramOk(p) && PlanOk(p, plan) && l in AllLabels(p, plan)
    ensures TermTargets(InstrumentedBlock(p, plan, l).term) <= AllLabels(p, plan)
  {
    match l
    case NoCREntry =>
      assert BlockOk(p, p.blocks[p.entry]);
      RedirectedWithin(p, plan, p.blocks[p.entry].term);
    case Orig(_) =>
      assert BlockOk(p, p.blocks[l]);
      DispatchWithin(p, plan);
      RedirectedWithin(p, plan, p.blocks[l].term);
    case _ => HeaderOf(p, plan, l);
  }

  /** A phi of the result has an operand for each edge. */
  lemma OldPhiComplete(p: Program, plan: Plan, live: map<Label, set<CFGUse>>, m: Label, n: Label, x: Value)
    requires ProgramOk(p) && PlanOk(p, plan) && n in p.blocks && n != p.entry && x in p.blocks[n].phis
    requires m in Preds(Instrumented(p, plan), n)
    ensures m in RenameIncoming(p.entry, p.blocks[n].phis[x])
  {
    PredOrigin(p, plan, n, n, m);
    var k :| IsEdge(p, k, n) && m == Renamed(p.entry, k);
    NoInsertedIncoming(p, n, x);
    RenamedIncoming(p.entry, p.blocks[n].phis[x], k);
  }

  lemma FixedKeys(q: Program, nodes: Nodes, l: Label, x: Value)
    requires l in q.blocks && x in FixedBlock(q, nodes, l).phis
    ensures if x in NewPhis(q, nodes, l) then FixedBlock(q, nodes, l).phis[x].Keys == Preds(q, l)
            else x in q.blocks[l].phis && FixedBlock(q, nodes, l).phis[x].Keys == q.blocks[l].phis[x].Keys
  {
  }

  lemma EdgeIsPred(p: Program, plan: Plan, live: map<Label, set<CFGUse>>, m: Label, n: Label)
    requires p.entry in p.blocks && IsEdge(Transformed(p, plan, live), m, n)
    ensures m in AllLabels(p, plan) && n in AllLabels(p, plan) && m in Preds(Instrumented(p, plan), n)
  {
    FixedAt(p, plan, live, m);
    FixedTargets(Instrumented(p, plan), NodesOf(p, plan, live), m);
  }

  lemma PhiComplete(p: Program, plan: Plan, live: map<Label, set<CFGUse>>, m: Label, n: Label, x: Value)
    requires ProgramOk(p) && PlanOk(p, plan) && IsEdge(Transformed(p, plan, live), m, n)
    requires x in Transformed(p, plan, live).blocks[n].phis
    ensures m in Transformed(p, plan, live).blocks[n].phis[x]
  {
    EdgeIsPred(p, plan, live, m, n);
    FixedAt(p, plan, live, n);
    var q, nodes := Instrumented(p, plan), NodesOf(p, plan, live);
    FixedKeys(q, nodes, n, x);
    if x !in NewPhis(q, nodes, n) {
      OldPhiOwner(p, plan, n, x);
      OldPhiComplete(p, plan, live, m, n, x);
    }
  }

  lemma OldPhiOwner(p: Program, plan: Plan, n: Label, x: Value)
    requires ProgramOk(p) && n in AllLabels(p, plan) && x in InstrumentedBlock(p, plan, n).phis
    ensures n in p.blocks && n != p.entry && x in p.blocks[n].phis
    ensures InstrumentedBlock(p, plan, n).phis[x] == RenameIncoming(p.entry, p.blocks[n].phis[x])
  {
  }

  lemma PhisApart(ps: Pointers, p: Program, plan: Plan, live: map<Label, set<CFGUse>>, l: Label)
    requires Given(ps, p, plan, live) && RestoresHome(plan) && l in Transformed(p, plan, live).blocks
    requires forall n :: n in p.blocks ==> p.blocks[n].phis.Keys !! Dsts(p.blocks[n].body)
    ensures Transformed(p, plan, live).blocks[l].phis.Keys !! Dsts(Transformed(p, plan, live).blocks[l].body)
  {
    assert InGiven(0);
    if l == p.entry || l == NoCREntry {
      EntryBlocksHold(ps, p, plan, live);
    } else if l.Orig? {
      PhisOfOriginal(p, plan, live, l);
      OriginalBlock(p, plan, live, l);
      SubbedDsts(AnyAt(live, l), l, p.blocks[l].body);
      assert BlockOk(p, p.blocks[l]);
    } else {
      HeaderOf(p, plan, l);
      CheckpointDefs(p, plan, live, Orig(l.id));
      RestartDefs(p, plan, live, Orig(l.id));
    }
  }

  lemma TransformedBlocks(ps: Pointers, p: Program, plan: Plan, live: map<Label, set<CFGUse>>)
    requires Given(ps, p, plan, live) && RestoresHome(plan)
    requires forall n :: n in p.blocks ==> p.blocks[n].phis.Keys !! Dsts(p.blocks[n].body)
    ensures var t := Transformed(p, plan, live);
            && (forall n :: n in t.blocks ==> TermTargets(t.blocks[n].term) <= t.blocks.Keys)
            && (forall n :: n in t.blocks ==> t.blocks[n].phis.Keys !! Dsts(t.blocks[n].body))
            && Complete(t)
  {
    assert InGiven(0);
    var t := Transformed(p, plan, live);
    forall n | n in t.blocks
      ensures TermTargets(t.blocks[n].term) <= t.blocks.Keys && t.blocks[n].phis.Keys !! Dsts(t.blocks[n].body)
    {
      TargetsWithin(p, plan, live, n);
      PhisApart(ps, p, plan, live, n);
    }
    forall m, n, x | IsEdge(t, m, n) && x in t.blocks[n].phis ensures m in t.blocks[n].phis[x] {
      PhiComplete(p, plan, live, m, n, x);
    }
  }

  lemma TransformedFlow(ps: Pointers, p: Program, plan: Plan, live: map<Label, set<CFGUse>>)
    requires Given(ps, p, plan, live) && PhisExact(p) && EmittedLocal(plan, live) && RestoresHome(plan)
    ensures var f := DirectFlow(Transformed(p, plan, live), WatchOf(ps, p, plan, live));
            Strict(f) && SingleDef(f)
  {
    TransformedLocated(ps, p, plan, live);
    WatchedLocal(ps, p, plan, live);
    EntryInPlace(ps, p, plan, live);
    LocatedIsStrict(Transformed(p, plan, live), WatchOf(ps, p, plan, live));
    TransformedSingleDef(ps, p, plan, live, WatchOf(ps, p, plan, live));
  }

  lemma EntryInPlace(ps: Pointers, p: Program, plan: Plan, live: map<Label, set<CFGUse>>)
    requires Given(ps, p, plan, live)
    ensures var t := Transformed(p, plan, live);
            t.entry in t.blocks && t.entry != NoCREntry && t.blocks[t.entry].phis == map[]
  {
    assert InGiven(0);
    EntryBlocksHold(ps, p, plan, live);
  }

  /** Steps 1 and 2 leave a well-formed function, with the values of each edge at hand. */
  lemma TransformedWellFormed(ps: Pointers, p: Program, plan: Plan, live: map<Label, set<CFGUse>>)
    requires Given(ps, p, plan, live) && PhisExact(p) && EmittedLocal(plan, live) && RestoresHome(plan)
    requires forall n :: n in p.blocks ==> p.blocks[n].phis.Keys !! Dsts(p.blocks[n].body)
    ensures WellFormed(Transformed(p, plan, live), WatchOf(ps, p, plan, live))
  {
    TransformedBlocks(ps, p, plan, live);
    EntryInPlace(ps, p, plan, live);
    WatchedLocal(ps, p, plan, live);
    TransformedFlow(ps, p, plan, live);
    AllWellFormed(Transformed(p, plan, live), WatchOf(ps, p, plan, live));
  }

  lemma AllWellFormed(t: Program, watch: Watch)
    requires t.entry in t.blocks && t.blocks[t.entry].phis == map[]
    requires forall n :: n in t.blocks ==> TermTargets(t.blocks[n].term) <= t.blocks.Keys
    requires forall n :: n in t.blocks ==> t.blocks[n].phis.Keys !! Dsts(t.blocks[n].body)
    requires Complete(t) && WatchLocal(t, watch) && Strict(DirectFlow(t, watch)) && SingleDef(DirectFlow(t, watch))
    ensures WellFormed(t, watch)
  {
  }

  /** The restores of filled blocks define restored values. */
  lemma FilledRestores(ps: Pointers, ty: Types, plan: Plan, orders: map<Label, Order>, live: map<Label, set<CFGUse>>)
    requires Filled(ps, ty, plan, orders, live)
    ensures RestoresHome(plan)
  {
    forall h | h in plan.headers
      ensures RestoredAt(Dsts(EmittedFor(plan, h).restores), RestartOf(h))
    {
      var k :| 0 <= k < |plan.headers| && plan.headers[k] == h;
      assert CodeFor(ps, ty, plan, orders, k, AnyAt(live, h));
      CodeRestores(ps, ty, RestartOf(h), k, orders[h]);
    }
  }

  lemma CodeRestores(ps: Pointers, ty: Types, l: Label, k: nat, order: Order)
    requires WellOrdered(ps, order)
    ensures RestoredAt(Dsts(EmittedCode(ps, ty, l, k, order).restores), l)
  {
    RestoresUse(ps, ty, l, order);
    DstsConcat(RestoresOf(ps, ty, l, order), [Instr(None, LoadFinish, [])]);
  }
}
