/**
  The constructor of `CFGFunction` behind the pointer analysis: the nodes and edges of the
  graph, the live analysis, and the live sets the pass goes on with.
 */
module Analysis {
  import opened Records
  import opened IR
  import opened Pointers
  import opened Paths
  import opened Cfg
  import opened Liveness
  import opened UseDef
  import opened Transform
  import opened Function

  /** The use and def sets of a node are those of its block. */
  ghost predicate NodeOf(ps: Pointers, p: Program, l: Label, use: set<CFGUse>, def: set<Value>)
    requires ps.Acyclic()
  {
    && l in p.blocks && UseSetOk(use)
    && def == BlockDefs(p.blocks[l], ArgsAt(p, l))
    && AnyValues(use) == BlockUses(ps, p.blocks[l], ArgsAt(p, l))
    && PhisRecorded(ps, p.blocks[l].phis, use)
  }

  function LabelsOf(nodes: seq<CFGNode>): set<Label> {
    set n | n in nodes :: n.label_
  }

  lemma LabelsAppend(nodes: seq<CFGNode>, n: CFGNode)
    ensures LabelsOf(nodes + [n]) == LabelsOf(nodes) + {n.label_}
  {
    assert n in nodes + [n] && forall m :: m in nodes ==> m in nodes + [n];
  }

  lemma LabelsInsert(nodes: set<CFGNode>, n: CFGNode)
    ensures Labels(nodes + {n}) == Labels(nodes) + {n.label_}
  {
    assert n in nodes + {n} && forall m :: m in nodes ==> m in nodes + {n};
  }

  ghost predicate Distinct(nodes: seq<CFGNode>) {
    forall i, j :: 0 <= i < j < |nodes| ==> nodes[i].label_ != nodes[j].label_
  }

  ghost predicate NodesFor(ps: Pointers, p: Program, nodes: seq<CFGNode>, labels: set<Label>)
    requires ps.Acyclic()
    reads nodes
  {
    && Distinct(nodes) && LabelsOf(nodes) == labels
    && forall n {:trigger LookAt(n)} :: LookAt(n) && n in nodes ==> NodeOf(ps, p, n.label_, n.use, n.def)
  }

  /** The use set of each node, by its label. */
  ghost predicate UsesAre(nodes: seq<CFGNode>, uses: map<Label, set<CFGUse>>)
    reads nodes
  {
    uses.Keys == LabelsOf(nodes) && forall n :: n in nodes ==> uses[n.label_] == n.use
  }

  lemma NodeAdded(ps: Pointers, p: Program, nodes: seq<CFGNode>, labels: set<Label>, uses: map<Label, set<CFGUse>>, node: CFGNode)
    requires ps.Acyclic() && NodesFor(ps, p, nodes, labels) && UsesAre(nodes, uses)
    requires node.label_ !in labels && NodeOf(ps, p, node.label_, node.use, node.def)
    ensures NodesFor(ps, p, nodes + [node], labels + {node.label_}) && UsesAre(nodes + [node], uses[node.label_ := node.use])
  {
    assert forall n :: n in nodes ==> n.label_ in LabelsOf(nodes);
    LabelsAppend(nodes, node);
  }

  /** One node for each block. */
  method AddNodes(ps: Pointers, p: Program) returns (nodes: seq<CFGNode>, ghost uses: map<Label, set<CFGUse>>)
    requires ps.Acyclic()
    ensures NodesFor(ps, p, nodes, p.blocks.Keys) && UsesAre(nodes, uses)
    ensures fresh(nodes) && forall n :: n in nodes ==> n.successors == {} && n.in_ == {} && n.out_ == {}
  {
    nodes, uses := [], map[];
    var todo := p.blocks.Keys;
    while todo != {}
      invariant todo <= p.blocks.Keys
      invariant NodesFor(ps, p, nodes, p.blocks.Keys - todo) && UsesAre(nodes, uses)
      invariant fresh(nodes) && forall n :: n in nodes ==> n.successors == {} && n.in_ == {} && n.out_ == {}
      decreases todo
    {
      var l :| l in todo;
      var use, def := CollectUseDef(ps, p.blocks[l], ArgsAt(p, l));
      var node := new CFGNode(l, use, def);
      NodeAdded(ps, p, nodes, p.blocks.Keys - todo, uses, node);
      assert p.blocks.Keys - todo + {l} == p.blocks.Keys - (todo - {l});
      nodes, uses := nodes + [node], uses[l := use];
      todo := todo - {l};
    }
  }

  method FindNodeByBasicBlock(nodes: seq<CFGNode>, l: Label) returns (node: CFGNode)
    requires exists n :: n in nodes && n.label_ == l
    ensures node in nodes && node.label_ == l
  {
    var i := 0;
    while nodes[i].label_ != l
      invariant i < |nodes|
      invariant exists n :: n in nodes[i..] && n.label_ == l
      decreases |nodes| - i
    {
      assert nodes[i..] == [nodes[i]] + nodes[i + 1..];
      i := i + 1;
    }
    node := nodes[i];
  }

  /** The edges out of one block. */
  method AddSuccessors(nodes: seq<CFGNode>, node: CFGNode, targets: set<Label>)
    requires Distinct(nodes) && node.successors == {}
    requires targets <= LabelsOf(nodes)
    modifies node`successors
    ensures Labels(node.successors) == targets && forall s :: s in node.successors ==> s in nodes
  {
    var todo := targets;
    while todo != {}
      invariant todo <= targets
      invariant Labels(node.successors) == targets - todo && forall s :: s in node.successors ==> s in nodes
      decreases todo
    {
      var to :| to in todo;
      var toNode := FindNodeByBasicBlock(nodes, to);
      LabelsInsert(node.successors, toNode);
      node.successors := node.successors + {toNode};
      todo := todo - {to};
    }
  }

  /** Marks the positions a proof looks at. */
  ghost predicate Position(i: nat) { true }

  /** Edges for the first `k` nodes, and none yet for the others. */
  ghost predicate EdgesUpTo(p: Program, nodes: seq<CFGNode>, k: nat)
    reads nodes
  {
    forall i {:trigger Position(i)} :: 0 <= i < |nodes| && Position(i) ==>
      if i < k then
        && nodes[i].label_ in p.blocks && Labels(nodes[i].successors) == TermTargets(p.blocks[nodes[i].label_].term)
        && forall s :: s in nodes[i].successors ==> s in nodes
      else nodes[i].successors == {}
  }

  method AddEdges(ps: Pointers, p: Program, nodes: seq<CFGNode>)
    requires ps.Acyclic() && ProgramOk(p)
    requires NodesFor(ps, p, nodes, p.blocks.Keys) && EdgesUpTo(p, nodes, 0)
    modifies nodes`successors
    ensures NodesFor(ps, p, nodes, p.blocks.Keys) && EdgesUpTo(p, nodes, |nodes|)
  {
    var i := 0;
    while i < |nodes|
      invariant i <= |nodes| && EdgesUpTo(p, nodes, i)
      invariant NodesFor(ps, p, nodes, p.blocks.Keys)
    {
      assert Position(i) && LookAt(nodes[i]);
      assert nodes[i] in nodes && BlockOk(p, p.blocks[nodes[i].label_]);
      assert forall j :: 0 <= j < |nodes| && j != i ==> nodes[j].label_ != nodes[i].label_;
      AddSuccessors(nodes, nodes[i], TermTargets(p.blocks[nodes[i].label_].term));
      i := i + 1;
    }
  }

  /** The nodes describe the flow graph of the function, but for the uses of edges the order of the sets has lost. */
  lemma DescribesRecorded(ps: Pointers, p: Program, nodes: seq<CFGNode>, uses: map<Label, set<CFGUse>>)
    requires ps.Acyclic() && ProgramOk(p) && UsesAre(nodes, uses)
    requires NodesFor(ps, p, nodes, p.blocks.Keys) && EdgesUpTo(p, nodes, |nodes|)
    ensures Describes(Recorded(FlowOf(ps, p), uses), nodes)
  {
    var g := Recorded(FlowOf(ps, p), uses);
    forall n | LookAt(n) && n in nodes
      ensures (forall s :: s in n.successors ==> s in nodes) && g.Succ(n.label_) == Labels(n.successors)
      ensures UseSetOk(n.use) && g.Def(n.label_) == n.def && g.Use(n.label_) == AnyValues(n.use)
      ensures forall m :: g.Edge(m, n.label_) == PhiValues(n.use, m)
    {
      var i :| 0 <= i < |nodes| && nodes[i] == n;
      assert Position(i);
      RecordedEdges(ps, p, n.label_, uses);
    }
  }

  lemma FlowEdge(ps: Pointers, p: Program, m: Label, n: Label)
    requires ps.Acyclic()
    ensures FlowOf(ps, p).Edge(m, n) == if m in p.blocks && n in p.blocks then PhiNeeds(ps, p.blocks[n].phis, m) else {}
  {
  }

  lemma RecordedEdge(f: Flow, uses: map<Label, set<CFGUse>>, m: Label, n: Label)
    ensures Recorded(f, uses).Edge(m, n) == if m in f.succ && n in uses then PhiValues(uses[n], m) else {}
  {
  }

  lemma RecordedEdges(ps: Pointers, p: Program, n: Label, uses: map<Label, set<CFGUse>>)
    requires ps.Acyclic() && ProgramOk(p) && n in p.blocks && n in uses && PhisRecorded(ps, p.blocks[n].phis, uses[n])
    ensures forall m :: Recorded(FlowOf(ps, p), uses).Edge(m, n) == PhiValues(uses[n], m)
  {
    forall m ensures Recorded(FlowOf(ps, p), uses).Edge(m, n) == PhiValues(uses[n], m) {
      RecordedEdge(FlowOf(ps, p), uses, m, n);
      RecordedNeeded(ps, p, n, uses[n], m);
    }
  }

  lemma RecordedNeeded(ps: Pointers, p: Program, n: Label, use: set<CFGUse>, m: Label)
    requires ps.Acyclic() && ProgramOk(p) && n in p.blocks && PhisRecorded(ps, p.blocks[n].phis, use)
    ensures PhiValues(use, m) <= PhiNeeds(ps, p.blocks[n].phis, m)
    ensures m !in p.blocks ==> PhiNeeds(ps, p.blocks[n].phis, m) == {}
  {
    assert BlockOk(p, p.blocks[n]);
  }

  /** Every use set records the phis of its block. */
  ghost predicate AllRecorded(ps: Pointers, p: Program, uses: map<Label, set<CFGUse>>)
    requires ps.Acyclic()
  {
    forall n :: n in p.blocks ==> n in uses && PhisRecorded(ps, p.blocks[n].phis, uses[n]) && Proper(uses[n])
  }

  lemma NodesRecord(ps: Pointers, p: Program, nodes: seq<CFGNode>, uses: map<Label, set<CFGUse>>)
    requires ps.Acyclic() && UsesAre(nodes, uses) && NodesFor(ps, p, nodes, p.blocks.Keys)
    ensures AllRecorded(ps, p, uses)
  {
    forall n | n in p.blocks ensures n in uses && PhisRecorded(ps, p.blocks[n].phis, uses[n]) && Proper(uses[n]) {
      assert n in LabelsOf(nodes);
      var node :| node in nodes && node.label_ == n;
      assert LookAt(node);
    }
  }

  lemma RecordedAt(ps: Pointers, p: Program, uses: map<Label, set<CFGUse>>, m: Label, n: Label)
    requires ps.Acyclic() && ProgramOk(p) && AllRecorded(ps, p, uses) && uses.Keys == p.blocks.Keys
    ensures Recorded(FlowOf(ps, p), uses).Edge(m, n) <= FlowOf(ps, p).Edge(m, n)
  {
    FlowEdge(ps, p, m, n);
    RecordedEdge(FlowOf(ps, p), uses, m, n);
    if n in p.blocks { RecordedNeeded(ps, p, n, uses[n], m); }
  }

  lemma RecordedMakesUp(ps: Pointers, p: Program, uses: map<Label, set<CFGUse>>, m: Label, n: Label, v: Value)
    requires ps.Acyclic() && ProgramOk(p) && AllRecorded(ps, p, uses) && SharedUsesLive(ps, p)
    requires FewerEdges(FlowOf(ps, p), Recorded(FlowOf(ps, p), uses))
    ensures MadeUpFor(FlowOf(ps, p), Recorded(FlowOf(ps, p), uses), m, n, v)
  {
    var f, g := FlowOf(ps, p), Recorded(FlowOf(ps, p), uses);
    if v in f.Edge(m, n) && v !in g.Edge(m, n) {
      FlowEdge(ps, p, m, n);
      RecordedEdge(f, uses, m, n);
      var k := RecordedElsewhere(ps, p.blocks[n].phis, uses[n], m, v);
      OrdinaryMakesUp(f, g, m, n, v);
    }
  }

  /** What is recorded is enough: the same values are live. */
  lemma RecordedIsEnough(ps: Pointers, p: Program, uses: map<Label, set<CFGUse>>)
    requires ps.Acyclic() && ProgramOk(p) && AllRecorded(ps, p, uses) && uses.Keys == p.blocks.Keys && SharedUsesLive(ps, p)
    ensures var f := FlowOf(ps, p);
            forall v, n :: LiveIn(Recorded(f, uses), v, n) <==> LiveIn(f, v, n)
  {
    var f, g := FlowOf(ps, p), Recorded(FlowOf(ps, p), uses);
    forall m, n ensures g.Edge(m, n) <= f.Edge(m, n) { RecordedAt(ps, p, uses, m, n); }
    forall m, n, v ensures MadeUpFor(f, g, m, n, v) { RecordedMakesUp(ps, p, uses, m, n, v); }
    SameLiveness(f, g);
  }

  /** `setUpLiveSetsAndMappings`: the live values of a node are its in set. */
  method SetUpLiveSets(nodes: seq<CFGNode>) returns (live: map<Label, set<CFGUse>>)
    requires Distinct(nodes)
    ensures live.Keys == LabelsOf(nodes)
    ensures forall n :: n in nodes ==> n.label_ in live && live[n.label_] == n.in_
  {
    live := map[];
    var i := 0;
    while i < |nodes|
      invariant i <= |nodes|
      invariant live.Keys == LabelsOf(nodes[..i])
      invariant forall j :: 0 <= j < i ==> nodes[j].label_ in live && live[nodes[j].label_] == nodes[j].in_
    {
      live := live[nodes[i].label_ := nodes[i].in_];
      assert nodes[..i + 1] == nodes[..i] + [nodes[i]];
      LabelsAppend(nodes[..i], nodes[i]);
      i := i + 1;
    }
    assert nodes[..i] == nodes;
  }

  /** Exact sets are what the pass relies on. */
  lemma ExactIsLiveOk(ps: Pointers, p: Program, g: Flow, n: CFGNode, live: set<CFGUse>)
    requires ps.Acyclic() && NodeOf(ps, p, n.label_, n.use, n.def) && Exact(g, n) && live == n.in_
    requires forall v :: LiveIn(g, v, n.label_) <==> LiveIn(FlowOf(ps, p), v, n.label_)
    ensures forall v :: v in AnyValues(live) <==> LiveIn(FlowOf(ps, p), v, n.label_)
    ensures forall m, v :: v in PhiNeeds(ps, p.blocks[n.label_].phis, m) ==> v in PhiOnlyValues(live)
    ensures UseSetOk(live) && PhiUsesNeeded(ps, p.blocks[n.label_].phis, live)
  {
    forall v ensures v in AnyValues(live) <==> AnyUse(v) in live {
      if v in AnyValues(live) {
        var u :| u in live && u.useType.ANY? && u.value == v;
      }
    }
    forall m: Label, v | v in PhiNeeds(ps, p.blocks[n.label_].phis, m)
      ensures v in PhiOnlyValues(live)
    {
      var w :| w in n.use && SameKey(w, UseFrom(v, Some(m)));
      assert w in live;
    }
    InSetOk(ps, p.blocks[n.label_].phis, n.use, live);
  }

  lemma InSetOk(ps: Pointers, phis: map<Value, Incoming>, use: set<CFGUse>, live: set<CFGUse>)
    requires ps.Acyclic() && PhisRecorded(ps, phis, use) && UseSetOk(use) && OwnPhis(live, use)
    ensures UseSetOk(live) && PhiUsesNeeded(ps, phis, live)
  {
  }

  /** The analysis over the nodes of some graph, and the live sets read off it. */
  method Solve(ghost f: Flow, nodes: seq<CFGNode>) returns (live: map<Label, set<CFGUse>>)
    requires Describes(f, nodes)
    requires forall n :: n in nodes ==> n.in_ == {} && n.out_ == {}
    modifies nodes`in_, nodes`out_
    ensures forall n :: n in nodes ==> Exact(f, n) && n.label_ in live && live[n.label_] == n.in_
  {
    var function_ := new CFGFunction(nodes);
    function_.DoLiveAnalysis(f);
    live := SetUpLiveSets(nodes);
  }

  /** Behind the pointer analysis: the live sets are those of the paths through the function. */
  method LiveValues(ps: Pointers, p: Program) returns (live: map<Label, set<CFGUse>>)
    requires ps.Acyclic() && ProgramOk(p) && SharedUsesLive(ps, p)
    ensures LiveOk(ps, p, live) && OwnUses(ps, p, live)
  {
    var nodes;
    ghost var uses;
    nodes, uses := AddNodes(ps, p);
    AddEdges(ps, p, nodes);
    NodesRecord(ps, p, nodes, uses);
    RecordedIsEnough(ps, p, uses);
    DescribesRecorded(ps, p, nodes, uses);
    live := SolveFor(ps, p, Recorded(FlowOf(ps, p), uses), nodes);
  }

  method SolveFor(ps: Pointers, p: Program, ghost g: Flow, nodes: seq<CFGNode>) returns (live: map<Label, set<CFGUse>>)
    requires ps.Acyclic() && Describes(g, nodes) && forall v, n :: LiveIn(g, v, n) <==> LiveIn(FlowOf(ps, p), v, n)
    requires NodesFor(ps, p, nodes, p.blocks.Keys)
    requires forall n :: n in nodes ==> n.in_ == {} && n.out_ == {}
    modifies nodes`in_, nodes`out_
    ensures LiveOk(ps, p, live) && OwnUses(ps, p, live)
  {
    live := Solve(g, nodes);
    ExactAreLiveOk(ps, p, g, nodes, live);
  }

  lemma ExactAreLiveOk(ps: Pointers, p: Program, g: Flow, nodes: seq<CFGNode>, live: map<Label, set<CFGUse>>)
    requires ps.Acyclic() && NodesFor(ps, p, nodes, p.blocks.Keys)
    requires forall v, n :: LiveIn(g, v, n) <==> LiveIn(FlowOf(ps, p), v, n)
    requires forall n :: n in nodes ==> Exact(g, n) && n.label_ in live && live[n.label_] == n.in_
    ensures LiveOk(ps, p, live) && OwnUses(ps, p, live)
  {
    forall l | l in p.blocks
      ensures l in live
      ensures forall v :: v in AnyValues(live[l]) <==> LiveIn(FlowOf(ps, p), v, l)
      ensures forall m, v :: v in PhiNeeds(ps, p.blocks[l].phis, m) ==> v in PhiOnlyValues(live[l])
      ensures UseSetOk(live[l]) && PhiUsesNeeded(ps, p.blocks[l].phis, live[l])
    {
      assert l in LabelsOf(nodes);
      var n :| n in nodes && n.label_ == l;
      assert LookAt(n);
      ExactIsLiveOk(ps, p, g, n, live[l]);
    }
  }
}
