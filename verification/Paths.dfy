/**
  Liveness of values along paths of a control flow graph, and what follows from it when
  nothing is live into the entry block.
 */
module Paths {
  import opened IR

  type Path = seq<Label>

  /** Uses of a block are those before any definition in it; an edge uses what the phis behind it read. */
  datatype Flow = Flow(
    entry: Label,
    succ: map<Label, set<Label>>,
    def: map<Label, set<Value>>,
    use: map<Label, set<Value>>,
    edge: map<(Label, Label), set<Value>>)
  {
    function Succ(n: Label): set<Label> { if n in succ then succ[n] else {} }

    function Def(n: Label): set<Value> { if n in def then def[n] else {} }

    function Use(n: Label): set<Value> { if n in use then use[n] else {} }

    function Edge(p: Label, n: Label): set<Value> { if (p, n) in edge then edge[(p, n)] else {} }
  }

  /** The path reaches a use of `v`, or an edge that reads it, before any definition. */
  predicate LivePath(f: Flow, v: Value, path: Path)
    requires path != []
  {
    if |path| == 1 then v in f.Use(path[0])
    else
      && v !in f.Def(path[0]) && path[1] in f.Succ(path[0])
      && ((|path| == 2 && v in f.Edge(path[0], path[1])) || LivePath(f, v, path[1..]))
  }

  ghost predicate LiveIn(f: Flow, v: Value, n: Label) {
    exists path: Path :: path != [] && path[0] == n && LivePath(f, v, path)
  }

  /** Live when control takes the edge from `p` to `n`. */
  ghost predicate LiveEdge(f: Flow, v: Value, p: Label, n: Label) {
    v in f.Edge(p, n) || LiveIn(f, v, n)
  }

  // ----- the data-flow equations -----

  lemma UsedIsLive(f: Flow, v: Value, n: Label)
    requires v in f.Use(n)
    ensures LiveIn(f, v, n)
  {
    assert LivePath(f, v, [n]);
  }

  lemma LiveBackwards(f: Flow, v: Value, n: Label, s: Label)
    requires v !in f.Def(n) && s in f.Succ(n) && LiveEdge(f, v, n, s)
    ensures LiveIn(f, v, n)
  {
    if v in f.Edge(n, s) {
      assert LivePath(f, v, [n, s]);
    } else {
      var path: Path :| path != [] && path[0] == s && LivePath(f, v, path);
      assert ([n] + path)[1..] == path;
      assert LivePath(f, v, [n] + path);
    }
  }

  lemma LiveForwards(f: Flow, v: Value, n: Label)
    requires LiveIn(f, v, n) && v !in f.Use(n)
    ensures v !in f.Def(n) && exists s :: s in f.Succ(n) && LiveEdge(f, v, n, s)
  {
    var path: Path :| path != [] && path[0] == n && LivePath(f, v, path);
    var s := path[1];
    if v !in f.Edge(n, s) {
      assert path[1..] != [] && path[1..][0] == s;
    }
    assert s in f.Succ(n) && LiveEdge(f, v, n, s);
  }

  /** `live` contains what the equations in = use + (out - def), out = union of the successors' ins, demand. */
  ghost predicate Solves(f: Flow, live: map<Label, set<Value>>) {
    && (forall n, v :: v in f.Use(n) ==> n in live && v in live[n])
    && (forall n, s, v :: s in f.Succ(n) && v !in f.Def(n) && (v in f.Edge(n, s) || (s in live && v in live[s])) ==>
          n in live && v in live[n])
  }

  /** Path liveness is contained in every solution. */
  lemma {:induction false} LeastSolution(f: Flow, live: map<Label, set<Value>>, v: Value, path: Path)
    requires Solves(f, live) && path != [] && LivePath(f, v, path)
    ensures path[0] in live && v in live[path[0]]
    decreases |path|
  {
    if |path| > 1 && !(|path| == 2 && v in f.Edge(path[0], path[1])) {
      LeastSolution(f, live, v, path[1..]);
      assert path[1..][0] == path[1];
    }
  }

  // ----- edges that are not recorded -----

  /** `g` is `f` with some uses of its edges missing. */
  ghost predicate FewerEdges(f: Flow, g: Flow) {
    g == f.(edge := g.edge) && forall m, n :: g.Edge(m, n) <= f.Edge(m, n)
  }

  /** The flow with the ordinary uses only. */
  function Ordinary(f: Flow): Flow {
    f.(edge := map[])
  }

  lemma {:induction false} FewerLive(f: Flow, g: Flow, v: Value, path: Path)
    requires FewerEdges(f, g) && path != [] && LivePath(g, v, path)
    ensures LivePath(f, v, path)
    decreases |path|
  {
    if |path| > 1 && !(|path| == 2 && v in g.Edge(path[0], path[1])) { FewerLive(f, g, v, path[1..]); }
  }

  lemma FewerLiveIn(f: Flow, g: Flow, v: Value, n: Label)
    requires FewerEdges(f, g) && LiveIn(g, v, n)
    ensures LiveIn(f, v, n)
  {
    var path: Path :| path != [] && path[0] == n && LivePath(g, v, path);
    FewerLive(f, g, v, path);
  }

  /** A use that is missing on the edge from `m` to `n` is made up for: defined in `m`, or live there all the same. */
  ghost predicate MadeUpFor(f: Flow, g: Flow, m: Label, n: Label, v: Value) {
    n in f.Succ(m) && v in f.Edge(m, n) && v !in g.Edge(m, n) ==> v in f.Def(m) || LiveIn(g, v, m)
  }

  ghost predicate NothingLost(f: Flow, g: Flow) {
    forall m, n, v :: MadeUpFor(f, g, m, n, v)
  }

  lemma {:induction false} StillLive(f: Flow, g: Flow, v: Value, path: Path)
    requires FewerEdges(f, g) && NothingLost(f, g) && path != [] && LivePath(f, v, path)
    ensures LiveIn(g, v, path[0])
    decreases |path|
  {
    if |path| == 1 {
      UsedIsLive(g, v, path[0]);
    } else if |path| == 2 && v in f.Edge(path[0], path[1]) {
      assert MadeUpFor(f, g, path[0], path[1], v);
      if v in g.Edge(path[0], path[1]) { LiveBackwards(g, v, path[0], path[1]); }
    } else {
      StillLive(f, g, v, path[1..]);
      LiveBackwards(g, v, path[0], path[1]);
    }
  }

  /** Liveness does not suffer from missing uses of edges exactly when each of them is made up for. */
  lemma SameLiveness(f: Flow, g: Flow)
    requires FewerEdges(f, g)
    ensures (forall v, n :: LiveIn(g, v, n) <==> LiveIn(f, v, n)) <==> NothingLost(f, g)
  {
    if NothingLost(f, g) {
      forall v, n ensures LiveIn(g, v, n) <==> LiveIn(f, v, n) {
        if LiveIn(f, v, n) {
          var path: Path :| path != [] && path[0] == n && LivePath(f, v, path);
          StillLive(f, g, v, path);
        }
        if LiveIn(g, v, n) { FewerLiveIn(f, g, v, n); }
      }
    }
    if forall v, n :: LiveIn(g, v, n) <==> LiveIn(f, v, n) {
      forall m, n, v | n in f.Succ(m) && v in f.Edge(m, n) && v !in f.Def(m) ensures MadeUpFor(f, g, m, n, v) {
        LiveBackwards(f, v, m, n);
      }
    }
  }

  /** What is live into `n` by ordinary uses makes up for any missing use of an edge to `n`. */
  lemma OrdinaryMakesUp(f: Flow, g: Flow, m: Label, n: Label, v: Value)
    requires FewerEdges(f, g) && (v in f.Def(m) || LiveIn(Ordinary(f), v, n))
    ensures MadeUpFor(f, g, m, n, v)
  {
    if n in f.Succ(m) && v !in f.Def(m) {
      assert FewerEdges(g, Ordinary(f));
      FewerLiveIn(g, Ordinary(f), v, n);
      LiveBackwards(g, v, m, n);
    }
  }

  /** Two ways from the entry to block 3, whose phi takes value 9 on both; recorded for one of them, it dies on the other. */
  function TwoWays(edge: map<(Label, Label), set<Value>>): Flow {
    Flow(Orig(0),
         map[Orig(0) := {Orig(1), Orig(2)}, Orig(1) := {Orig(3)}, Orig(2) := {Orig(3)}],
         map[Orig(0) := {Src(9)}], map[], edge)
  }

  lemma LostUse()
    ensures var f := TwoWays(map[(Orig(1), Orig(3)) := {Src(9)}, (Orig(2), Orig(3)) := {Src(9)}]);
            var g := TwoWays(map[(Orig(1), Orig(3)) := {Src(9)}]);
            FewerEdges(f, g) && LiveIn(f, Src(9), Orig(2)) && !LiveIn(g, Src(9), Orig(2))
  {
    var f := TwoWays(map[(Orig(1), Orig(3)) := {Src(9)}, (Orig(2), Orig(3)) := {Src(9)}]);
    var g := TwoWays(map[(Orig(1), Orig(3)) := {Src(9)}]);
    LiveBackwards(f, Src(9), Orig(2), Orig(3));
    if LiveIn(g, Src(9), Orig(3)) { LiveForwards(g, Src(9), Orig(3)); }
    if LiveIn(g, Src(9), Orig(2)) { LiveForwards(g, Src(9), Orig(2)); }
  }

  // ----- walks -----

  predicate Walk(f: Flow, path: Path) {
    path != [] && forall i :: 0 <= i < |path| - 1 ==> path[i + 1] in f.Succ(path[i])
  }

  function Last(path: Path): Label
    requires path != []
  {
    path[|path| - 1]
  }

  ghost predicate Reachable(f: Flow, n: Label) {
    exists path :: Walk(f, path) && path[0] == f.entry && Last(path) == n
  }

  lemma ReachableSuccessor(f: Flow, n: Label, s: Label)
    requires Reachable(f, n) && s in f.Succ(n)
    ensures Reachable(f, s)
  {
    var path :| Walk(f, path) && path[0] == f.entry && Last(path) == n;
    assert Walk(f, path + [s]);
    assert Last(path + [s]) == s;
  }

  /** Live at the end of a walk that does not define it: live at its start. */
  lemma {:induction false} LiveAlongWalk(f: Flow, v: Value, path: Path)
    requires Walk(f, path) && LiveIn(f, v, Last(path))
    requires forall i :: 0 <= i < |path| - 1 ==> v !in f.Def(path[i])
    ensures LiveIn(f, v, path[0])
    decreases |path|
  {
    if |path| > 1 {
      var rest := path[1..];
      forall i | 0 <= i < |rest| - 1
        ensures rest[i + 1] in f.Succ(rest[i])
      {
        assert path[(i + 1) + 1] in f.Succ(path[i + 1]);
      }
      LiveAlongWalk(f, v, rest);
      assert path[0 + 1] in f.Succ(path[0]);
      LiveBackwards(f, v, path[0], path[1]);
    }
  }

  /** A live path is a walk without definitions that ends in a use. */
  lemma {:induction false} LivePathShape(f: Flow, v: Value, path: Path)
    requires path != [] && LivePath(f, v, path)
    ensures Walk(f, path) && forall i :: 0 <= i < |path| - 1 ==> v !in f.Def(path[i])
    ensures v in f.Use(Last(path)) || (|path| > 1 && v in f.Edge(path[|path| - 2], Last(path)))
    decreases |path|
  {
    if |path| > 1 && !(|path| == 2 && v in f.Edge(path[0], path[1])) {
      LivePathShape(f, v, path[1..]);
      forall i | 0 <= i < |path| - 1 ensures path[i + 1] in f.Succ(path[i]) && v !in f.Def(path[i]) {
        if i > 0 { assert path[1..][(i - 1) + 1] in f.Succ(path[1..][i - 1]) && v !in f.Def(path[1..][i - 1]); }
      }
    }
  }

  /** Nothing is live into the entry block. */
  ghost predicate Strict(f: Flow) {
    forall v :: !LiveIn(f, v, f.entry)
  }

  predicate FromEntry(f: Flow, path: Path) {
    Walk(f, path) && path[0] == f.entry
  }

  /** On every walk from the entry to where a value is live, an earlier block defines it. */
  lemma DefinedOnWalk(f: Flow, v: Value, path: Path) returns (i: nat)
    requires Strict(f) && FromEntry(f, path) && LiveIn(f, v, Last(path))
    ensures i < |path| - 1 && v in f.Def(path[i])
  {
    if j :| 0 <= j < |path| - 1 && v in f.Def(path[j]) {
      i := j;
    } else {
      LiveAlongWalk(f, v, path);
      assert false;
    }
  }

  lemma {:induction false} FirstVisit(path: Path, n: Label) returns (k: nat)
    requires n in path
    ensures k < |path| && path[k] == n && n !in path[..k]
  {
    if path[0] == n {
      k := 0;
    } else {
      var rest := path[1..];
      k := FirstVisit(rest, n);
      assert path[..k + 1] == [path[0]] + rest[..k];
      k := k + 1;
    }
  }

  lemma ShortWalk(f: Flow, n: Label) returns (path: Path)
    requires Reachable(f, n)
    ensures FromEntry(f, path) && Last(path) == n && n !in path[..|path| - 1]
  {
    var long :| Walk(f, long) && long[0] == f.entry && Last(long) == n;
    var k := FirstVisit(long, n);
    path := long[..k + 1];
    assert path[..|path| - 1] == long[..k];
  }

  ghost predicate SingleDef(f: Flow) {
    forall v, m, n :: v in f.Def(m) && v in f.Def(n) ==> m == n
  }

  /** What is live into a reachable block is not defined by it. */
  lemma LiveNotDefined(f: Flow, v: Value, n: Label)
    requires Strict(f) && SingleDef(f) && Reachable(f, n) && LiveIn(f, v, n)
    ensures v !in f.Def(n)
  {
    var path := ShortWalk(f, n);
    var i := DefinedOnWalk(f, v, path);
    assert path[i] in path[..|path| - 1];
  }

  /** Every walk from the entry to a block that defines `p` passes a definition of `a`. */
  ghost predicate Dominates(f: Flow, a: Value, p: Value) {
    forall path :: FromEntry(f, path) && p in f.Def(Last(path)) ==> exists i :: 0 <= i < |path| && a in f.Def(path[i])
  }

  /** While `p` is live, nothing that dominates it is defined again. */
  lemma NotRedefined(f: Flow, p: Value, a: Value, n: Label)
    requires Strict(f) && SingleDef(f) && Reachable(f, n) && LiveIn(f, p, n) && Dominates(f, a, p)
    ensures a !in f.Def(n)
  {
    var path := ShortWalk(f, n);
    var i := DefinedOnWalk(f, p, path);
    var prefix := path[..i + 1];
    assert FromEntry(f, prefix) && Last(prefix) == path[i];
    var j :| 0 <= j < |prefix| && a in f.Def(prefix[j]);
    assert prefix[j] in path[..|path| - 1];
  }

  /** Wherever `p` is used, `a` is used as well, or defined in the same block before. */
  ghost predicate UsedTogether(f: Flow, p: Value, a: Value) {
    && (forall n :: p in f.Use(n) ==> a in f.Use(n) || a in f.Def(n))
    && (forall m, n :: p in f.Edge(m, n) ==> a in f.Edge(m, n))
  }

  /** A value used together with `p` that dominates `p` is live wherever `p` is. */
  lemma {:induction false} LiveTogether(f: Flow, p: Value, a: Value, path: Path)
    requires Strict(f) && SingleDef(f) && Dominates(f, a, p) && UsedTogether(f, p, a)
    requires path != [] && LivePath(f, p, path) && Reachable(f, path[0])
    ensures LiveIn(f, a, path[0])
    decreases |path|
  {
    var n := path[0];
    assert LiveIn(f, p, n);
    NotRedefined(f, p, a, n);
    if |path| == 1 {
      UsedIsLive(f, a, n);
    } else {
      if p !in f.Edge(n, path[1]) {
        ReachableSuccessor(f, n, path[1]);
        LiveTogether(f, p, a, path[1..]);
      }
      LiveBackwards(f, a, n, path[1]);
    }
  }

  lemma LiveInTogether(f: Flow, p: Value, a: Value, n: Label)
    requires Strict(f) && SingleDef(f) && Dominates(f, a, p) && UsedTogether(f, p, a)
    requires Reachable(f, n) && LiveIn(f, p, n)
    ensures LiveIn(f, a, n)
  {
    var path: Path :| path != [] && path[0] == n && LivePath(f, p, path);
    LiveTogether(f, p, a, path);
  }

  lemma SameWalks(f: Flow, g: Flow)
    requires FewerEdges(f, g)
    ensures forall path :: FromEntry(g, path) <==> FromEntry(f, path)
    ensures forall n :: Reachable(f, n) ==> Reachable(g, n)
  {
    forall n | Reachable(f, n) ensures Reachable(g, n) {
      var path :| Walk(f, path) && path[0] == f.entry && Last(path) == n;
      assert Walk(g, path);
    }
  }

  lemma StrictStays(f: Flow, g: Flow)
    requires FewerEdges(f, g) && Strict(f)
    ensures Strict(g)
  {
    forall v ensures !LiveIn(g, v, g.entry) {
      if LiveIn(g, v, g.entry) { FewerLiveIn(f, g, v, f.entry); }
    }
  }

  lemma DominatesStays(f: Flow, g: Flow, a: Value, p: Value)
    requires FewerEdges(f, g) && Dominates(f, a, p)
    ensures Dominates(g, a, p)
  {
    SameWalks(f, g);
    forall path | FromEntry(g, path) && p in g.Def(Last(path)) ensures exists i :: 0 <= i < |path| && a in g.Def(path[i]) {
      assert FromEntry(f, path);
      var i :| 0 <= i < |path| && a in f.Def(path[i]);
      assert a in g.Def(path[i]);
    }
  }

  lemma DefsStay(f: Flow, g: Flow)
    requires FewerEdges(f, g)
    ensures SingleDef(f) ==> SingleDef(g)
  {
    assert forall n :: g.Def(n) == f.Def(n);
  }

  lemma OrdinaryUses(f: Flow, p: Value, a: Value)
    requires UsedTogether(f, p, a)
    ensures UsedTogether(Ordinary(f), p, a)
  {
    var g := Ordinary(f);
    forall n | p in g.Use(n) ensures a in g.Use(n) || a in g.Def(n) { assert p in f.Use(n); }
  }

  /** The same with ordinary uses only. */
  lemma OrdinaryTogether(f: Flow, p: Value, a: Value, n: Label)
    requires Strict(f) && SingleDef(f) && Dominates(f, a, p) && UsedTogether(f, p, a)
    requires Reachable(f, n) && LiveIn(Ordinary(f), p, n)
    ensures LiveIn(Ordinary(f), a, n)
  {
    var g := Ordinary(f);
    StrictStays(f, g);
    DominatesStays(f, g, a, p);
    SameWalks(f, g);
    DefsStay(f, g);
    OrdinaryUses(f, p, a);
    LiveInTogether(g, p, a, n);
  }
}
