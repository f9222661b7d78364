/**
  `CFGFunction::doLiveAnalysis`: it ends, and with exactly the values that are live along
  some path, whatever the order of the nodes.
 */
module Liveness {
  import opened Records
  import opened IR
  import opened Paths
  import opened Cfg

  ghost predicate LiveOut(f: Flow, v: Value, n: Label) {
    exists s :: s in f.Succ(n) && LiveEdge(f, v, n, s)
  }

  function Labels(nodes: set<CFGNode>): set<Label> {
    set n | n in nodes :: n.label_
  }

  /** Marks the nodes a proof looks at. */
  ghost predicate LookAt(n: CFGNode) { true }

  /** `f` is the graph of the nodes. */
  ghost predicate Describes(f: Flow, nodes: seq<CFGNode>)
    reads nodes
  {
    && (forall i, j :: 0 <= i < j < |nodes| ==> nodes[i].label_ != nodes[j].label_)
    && forall n {:trigger LookAt(n)} :: LookAt(n) && n in nodes ==>
         && UseSetOk(n.use)
         && (forall s :: s in n.successors ==> s in nodes)
         && f.Succ(n.label_) == Labels(n.successors)
         && f.Def(n.label_) == n.def
         && f.Use(n.label_) == AnyValues(n.use)
         && forall p :: f.Edge(p, n.label_) == PhiValues(n.use, p)
  }

  ghost predicate InOk(f: Flow, n: CFGNode, u: CFGUse)
    reads n`use
  {
    (u == AnyUse(u.value) && LiveIn(f, u.value, n.label_)) || (u in n.use && u.useType.PHIOnly?)
  }

  ghost predicate OutOk(f: Flow, n: CFGNode, u: CFGUse) {
    u == AnyUse(u.value) && LiveOut(f, u.value, n.label_)
  }

  ghost predicate InSound(f: Flow, n: CFGNode)
    reads n
  {
    forall u :: u in n.in_ ==> InOk(f, n, u)
  }

  ghost predicate OutSound(f: Flow, n: CFGNode)
    reads n
  {
    forall u :: u in n.out_ ==> OutOk(f, n, u)
  }

  ghost predicate InSolved(n: CFGNode)
    reads n
  {
    n.use <= n.in_ && forall u :: u in n.out_ && u.value !in n.def ==> u in n.in_
  }

  ghost predicate OutSolved(n: CFGNode)
    reads n, n.successors
  {
    forall s :: s in n.successors ==> Propagate(n.label_, s.in_) <= n.out_
  }

  ghost predicate Solved(n: CFGNode)
    reads n, n.successors
  {
    InSolved(n) && OutSolved(n)
  }

  /** Everything in `all` bounds what the sets may ever contain. */
  ghost predicate Bounds(all: set<CFGUse>, nodes: seq<CFGNode>)
    reads nodes
  {
    && (forall u :: u in all ==> AnyUse(u.value) in all)
    && forall n :: n in nodes ==> n.use <= all && n.in_ <= all && n.out_ <= all
  }

  ghost predicate Sound(f: Flow, nodes: seq<CFGNode>)
    reads nodes
  {
    forall n :: n in nodes ==> InSound(f, n) && OutSound(f, n)
  }

  /** What is known so far, as one set that only grows. */
  type Facts = set<(Label, CFGUse, bool)>

  ghost predicate KnownOf(facts: Facts, n: Label, in_: set<CFGUse>, out_: set<CFGUse>) {
    forall u :: ((n, u, true) in facts <==> u in in_) && ((n, u, false) in facts <==> u in out_)
  }

  ghost predicate Known(facts: Facts, nodes: seq<CFGNode>)
    reads nodes
  {
    forall n :: n in nodes ==> KnownOf(facts, n.label_, n.in_, n.out_)
  }

  ghost function Everything(nodes: seq<CFGNode>, all: set<CFGUse>): Facts {
    (set n, u | n in nodes && u in all :: (n.label_, u, true)) +
    (set n, u | n in nodes && u in all :: (n.label_, u, false))
  }

  ghost function Added(n: Label, in_: set<CFGUse>, out_: set<CFGUse>): Facts {
    (set u | u in in_ :: (n, u, true)) + (set u | u in out_ :: (n, u, false))
  }

  ghost function Universe(nodes: seq<CFGNode>): set<CFGUse>
    reads nodes
  {
    (set n, u | n in nodes && u in n.use :: u) + (set n, u | n in nodes && u in n.use :: AnyUse(u.value))
  }

  /** The sets of a node say exactly what is live there. */
  ghost predicate Exact(f: Flow, n: CFGNode)
    reads n
  {
    && (forall v :: AnyUse(v) in n.in_ <==> LiveIn(f, v, n.label_))
    && (forall u :: u in n.in_ && u.useType.PHIOnly? <==> u in n.use && u.useType.PHIOnly?)
    && (forall v :: AnyUse(v) in n.out_ <==> LiveOut(f, v, n.label_))
    && AllAny(n.out_) && OwnPhis(n.in_, n.use)
  }

  class CFGFunction {
    var nodes: seq<CFGNode>

    constructor (nodes: seq<CFGNode>)
      ensures this.nodes == nodes
    {
      this.nodes := nodes;
    }

    method DoLiveAnalysis(ghost f: Flow)
      requires Describes(f, nodes)
      requires forall n :: n in nodes ==> n.in_ == {} && n.out_ == {}
      modifies nodes`in_, nodes`out_
      ensures nodes == old(nodes) && Describes(f, nodes)
      ensures forall n :: n in nodes ==> Exact(f, n)
    {
      ghost var all := Universe(nodes);
      ghost var everything := Everything(nodes, all);
      ghost var facts: Facts := {};
      var converged := false;
      while !converged
        invariant Describes(f, nodes) && Sound(f, nodes) && Bounds(all, nodes)
        invariant Known(facts, nodes) && facts <= everything
        invariant converged ==> forall n :: n in nodes ==> Solved(n)
        decreases everything - facts, !converged
      {
        converged, facts := Sweep(f, all, facts);
      }
      forall n | n in nodes ensures Exact(f, n) { SolvedIsExact(f, nodes, n); }
    }

    /** One pass over the nodes. */
    method Sweep(ghost f: Flow, ghost all: set<CFGUse>, ghost facts: Facts) returns (converged: bool, ghost more: Facts)
      requires Describes(f, nodes) && Sound(f, nodes) && Bounds(all, nodes)
      requires Known(facts, nodes) && facts <= Everything(nodes, all)
      modifies nodes`in_, nodes`out_
      ensures nodes == old(nodes) && Describes(f, nodes) && Sound(f, nodes) && Bounds(all, nodes)
      ensures Known(more, nodes) && facts <= more <= Everything(nodes, all)
      ensures if converged then more == facts && forall n :: n in nodes ==> Solved(n) else facts < more
    {
      converged := true;
      more := facts;
      var i := 0;
      while i < |nodes|
        invariant i <= |nodes|
        invariant Describes(f, nodes) && Sound(f, nodes) && Bounds(all, nodes)
        invariant Known(more, nodes) && more <= Everything(nodes, all)
        invariant if converged then more == facts else facts < more
        invariant converged ==> forall j :: 0 <= j < i ==> Solved(nodes[j])
      {
        var changed;
        changed, more := Visit(f, nodes, all, more, nodes[i]);
        converged := converged && !changed;
        i := i + 1;
      }
    }
  }

  /** A visit seen from the whole graph. */
  method Visit(ghost f: Flow, ghost nodes: seq<CFGNode>, ghost all: set<CFGUse>, ghost facts: Facts, node: CFGNode)
    returns (changed: bool, ghost more: Facts)
    requires Describes(f, nodes) && Sound(f, nodes) && Bounds(all, nodes) && node in nodes
    requires Known(facts, nodes) && facts <= Everything(nodes, all)
    modifies node`in_, node`out_
    ensures Describes(f, nodes) && Sound(f, nodes) && Bounds(all, nodes)
    ensures Known(more, nodes) && more <= Everything(nodes, all)
    ensures !changed ==> forall n :: n in nodes && old(Solved(n)) ==> Solved(n)
    ensures if changed then facts < more
            else more == facts && node.in_ == old(node.in_) && node.out_ == old(node.out_) && Solved(node)
  {
    ghost var in0, out0 := node.in_, node.out_;
    changed := VisitNode(f, nodes, all, node);
    AddedKnown(nodes, node, facts, in0, out0);
    more := facts + Added(node.label_, node.in_, node.out_);
  }

  /** A visit keeps what is known sound, and solves the equations of its node. */
  method VisitNode(ghost f: Flow, ghost nodes: seq<CFGNode>, ghost all: set<CFGUse>, node: CFGNode) returns (changed: bool)
    requires Describes(f, nodes) && Sound(f, nodes) && Bounds(all, nodes) && node in nodes
    modifies node`in_, node`out_
    ensures InSound(f, node) && OutSound(f, node)
    ensures old(node.in_) <= node.in_ <= all && old(node.out_) <= node.out_ <= all
    ensures changed == (node.in_ != old(node.in_) || node.out_ != old(node.out_))
    ensures !changed ==> Solved(node)
  {
    assert LookAt(node);
    forall s | s in node.successors ensures LookAt(s) && Proper(s.use) && OwnPhis(s.in_, s.use) { assert LookAt(s); }
    ghost var in0, out0 := node.in_, node.out_;
    changed := UpdateNode(node);
    forall u | u in node.in_
      ensures InOk(f, node, u) && u in all
    {
      InStaysSound(f, nodes, node, u, in0, out0);
    }
    forall u | u in node.out_
      ensures OutOk(f, node, u) && u in all
    {
      if u !in out0 {
        var s :| s in node.successors && u in Propagate(node.label_, s.in_);
        OutStaysSound(f, nodes, node, s, u);
      }
    }
  }

  lemma AddedKnown(nodes: seq<CFGNode>, node: CFGNode, facts: Facts, in0: set<CFGUse>, out0: set<CFGUse>)
    requires node in nodes
    requires forall i, j :: 0 <= i < j < |nodes| ==> nodes[i].label_ != nodes[j].label_
    requires KnownOf(facts, node.label_, in0, out0) && in0 <= node.in_ && out0 <= node.out_
    requires forall n :: n in nodes && n != node ==> KnownOf(facts, n.label_, n.in_, n.out_)
    ensures var more := facts + Added(node.label_, node.in_, node.out_);
            Known(more, nodes) &&
            if node.in_ == in0 && node.out_ == out0 then more == facts else facts < more
  {
    var more := facts + Added(node.label_, node.in_, node.out_);
    forall n | n in nodes
      ensures KnownOf(more, n.label_, n.in_, n.out_)
    {
      if n != node { assert n.label_ != node.label_; }
    }
    if node.in_ != in0 {
      var u :| u in node.in_ && u !in in0;
      assert (node.label_, u, true) in more;
    } else if node.out_ != out0 {
      var u :| u in node.out_ && u !in out0;
      assert (node.label_, u, false) in more;
    }
  }

  lemma InStaysSound(f: Flow, nodes: seq<CFGNode>, node: CFGNode, u: CFGUse, in0: set<CFGUse>, out0: set<CFGUse>)
    requires Describes(f, nodes) && node in nodes
    requires forall w :: w in in0 ==> InOk(f, node, w)
    requires forall w :: w in out0 ==> OutOk(f, node, w)
    requires u in in0 + node.use + set w | w in out0 && w.value !in node.def
    ensures InOk(f, node, u)
  {
    assert LookAt(node);
    if u !in in0 {
      if u in node.use {
        if u.useType.ANY? {
          assert u.value in AnyValues(node.use);
          UsedIsLive(f, u.value, node.label_);
        }
      } else {
        var s :| s in f.Succ(node.label_) && LiveEdge(f, u.value, node.label_, s);
        LiveBackwards(f, u.value, node.label_, s);
      }
    }
  }

  lemma OutStaysSound(f: Flow, nodes: seq<CFGNode>, node: CFGNode, s: CFGNode, u: CFGUse)
    requires Describes(f, nodes) && node in nodes && s in node.successors
    requires InSound(f, s)
    requires u in Propagate(node.label_, s.in_)
    ensures OutOk(f, node, u)
  {
    assert LookAt(node) && LookAt(s);
    var w :| w in s.in_ && (w.useType.ANY? || w.sourcePHIBlock == Some(node.label_)) && u == AnyUse(w.value);
    assert s in nodes && s.label_ in Labels(node.successors);
    if w.useType.PHIOnly? {
      assert w.value in PhiValues(s.use, node.label_);
    }
    assert s.label_ in f.Succ(node.label_) && LiveEdge(f, u.value, node.label_, s.label_);
  }

  lemma SolvedIsExact(f: Flow, nodes: seq<CFGNode>, n: CFGNode)
    requires Describes(f, nodes) && Sound(f, nodes) && n in nodes
    requires forall m :: m in nodes ==> Solved(m)
    ensures Exact(f, n)
  {
    assert LookAt(n);
    forall v | LiveIn(f, v, n.label_)
      ensures AnyUse(v) in n.in_
    {
      var path: Path :| path != [] && path[0] == n.label_ && LivePath(f, v, path);
      LiveIsFound(f, nodes, n, v, path);
    }
    forall v | LiveOut(f, v, n.label_)
      ensures AnyUse(v) in n.out_
    {
      var l :| l in f.Succ(n.label_) && LiveEdge(f, v, n.label_, l);
      var s :| s in n.successors && s.label_ == l;
      if v !in f.Edge(n.label_, l) {
        var path: Path :| path != [] && path[0] == l && LivePath(f, v, path);
        LiveIsFound(f, nodes, s, v, path);
      }
      FoundGoesOut(f, nodes, n, s, v);
    }
  }

  lemma FoundGoesOut(f: Flow, nodes: seq<CFGNode>, n: CFGNode, s: CFGNode, v: Value)
    requires Describes(f, nodes) && n in nodes && s in n.successors
    requires InSolved(s) && OutSolved(n)
    requires v in f.Edge(n.label_, s.label_) || AnyUse(v) in s.in_
    ensures AnyUse(v) in n.out_
  {
    assert LookAt(n) && LookAt(s);
    assert s in nodes;
    if v in f.Edge(n.label_, s.label_) {
      var u :| u in s.use && u.useType.PHIOnly? && u.sourcePHIBlock == Some(n.label_) && u.value == v;
      assert AnyUse(v) in Propagate(n.label_, s.in_);
    } else {
      assert AnyUse(AnyUse(v).value) in Propagate(n.label_, s.in_);
    }
  }

  lemma {:induction false} LiveIsFound(f: Flow, nodes: seq<CFGNode>, n: CFGNode, v: Value, path: Path)
    requires Describes(f, nodes) && n in nodes
    requires forall m :: m in nodes ==> Solved(m)
    requires path != [] && path[0] == n.label_ && LivePath(f, v, path)
    ensures AnyUse(v) in n.in_
    decreases |path|
  {
    assert LookAt(n);
    if |path| == 1 {
      var u :| u in n.use && u.useType.ANY? && u.value == v;
      assert u == AnyUse(v);
    } else {
      var s :| s in n.successors && s.label_ == path[1];
      if !(v in f.Edge(n.label_, path[1])) {
        LiveIsFound(f, nodes, s, v, path[1..]);
      }
      FoundGoesOut(f, nodes, n, s, v);
      assert AnyUse(v).value !in n.def;
    }
  }
}
