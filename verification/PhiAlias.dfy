/**
  The alias sets of pointer phis: phis in the sets are replaced by what they may alias, until
  none is left.
 */
module PhiAlias {
  import opened IR

  type AliasSets = map<Value, set<Value>>

  // ----- what a phi may alias in the end -----

  /** From phi to phi along the alias sets, to a value that is none. */
  predicate AliasPath(sets: AliasSets, path: seq<Value>) {
    |path| >= 2 && path[|path| - 1] !in sets
    && forall i :: 0 <= i < |path| - 1 ==> path[i] in sets && path[i + 1] in sets[path[i]]
  }

  ghost predicate Roots(sets: AliasSets, phi: Value, v: Value) {
    exists path :: AliasPath(sets, path) && path[0] == phi && path[|path| - 1] == v
  }

  /** The phis in an alias set. */
  function PhisIn(sets: AliasSets, phi: Value): set<Value>
    requires phi in sets
  {
    sets[phi] * sets.Keys
  }

  /** What the phis in the set of `phi` may alias, as far as the alias analysis does not rule it out. */
  function Behind(sets: AliasSets, phi: Value, noAlias: (Value, Value) -> bool): set<Value>
    requires phi in sets
  {
    set q, v | q in PhisIn(sets, phi) && v in sets[q] && !noAlias(phi, v) :: v
  }

  /** One visit: the phis in the set give way to what is behind them. */
  function Visited(sets: AliasSets, phi: Value, noAlias: (Value, Value) -> bool): AliasSets
    requires phi in sets
  {
    sets[phi := sets[phi] + Behind(sets, phi, noAlias) - PhisIn(sets, phi)]
  }

  lemma PathTail(sets: AliasSets, path: seq<Value>)
    requires AliasPath(sets, path) && |path| > 2
    ensures AliasPath(sets, path[1..])
  {
    forall i | 0 <= i < |path[1..]| - 1 ensures path[1..][i] in sets && path[1..][i + 1] in sets[path[1..][i]] {
      assert path[i + 1] in sets && path[(i + 1) + 1] in sets[path[i + 1]];
    }
  }

  lemma RootsCons(sets: AliasSets, phi: Value, q: Value, v: Value)
    requires phi in sets && q in sets[phi]
    requires (q in sets && Roots(sets, q, v)) || (q !in sets && q == v)
    ensures Roots(sets, phi, v)
  {
    if q in sets {
      var path :| AliasPath(sets, path) && path[0] == q && path[|path| - 1] == v;
      assert AliasPath(sets, [phi] + path);
    } else {
      assert AliasPath(sets, [phi, q]);
    }
  }

  // ----- nothing new -----

  /** A path behind a visit was there before. */
  lemma {:induction false} VisitAddsNothing(sets: AliasSets, phi: Value, noAlias: (Value, Value) -> bool, path: seq<Value>)
    requires phi in sets && AliasPath(Visited(sets, phi, noAlias), path)
    ensures Roots(sets, path[0], path[|path| - 1])
    decreases |path|
  {
    var after := Visited(sets, phi, noAlias);
    var x, y, v := path[0], path[1], path[|path| - 1];
    if |path| > 2 {
      PathTail(after, path);
      VisitAddsNothing(sets, phi, noAlias, path[1..]);
    }
    assert y in after[x];
    if y in sets[x] {
      RootsCons(sets, x, y, v);
    } else {
      var q :| q in PhisIn(sets, phi) && y in sets[q];
      RootsCons(sets, q, y, v);
      RootsCons(sets, phi, q, v);
    }
  }

  // ----- nothing lost but what is ruled out -----

  /** The alias analysis rules nothing out. */
  ghost predicate MayAlias(noAlias: (Value, Value) -> bool) {
    forall p, v :: !noAlias(p, v)
  }

  /** Nowhere on the path does the alias analysis rule out what comes later on it. */
  ghost predicate Open(path: seq<Value>, noAlias: (Value, Value) -> bool) {
    forall i, j :: 0 <= i < j < |path| ==> !noAlias(path[i], path[j])
  }

  /** The roots to which a path leads that is never ruled out. */
  ghost predicate OpenRoots(sets: AliasSets, phi: Value, v: Value, noAlias: (Value, Value) -> bool) {
    exists path :: AliasPath(sets, path) && Open(path, noAlias) && path[0] == phi && path[|path| - 1] == v
  }

  /** A path that does not pass `phi` behind its start. */
  predicate Avoids(path: seq<Value>, phi: Value) {
    forall i :: 0 < i < |path| ==> path[i] != phi
  }

  /** What may be said of the end of an open path. */
  ghost predicate EndOf(rest: seq<Value>, path: seq<Value>, noAlias: (Value, Value) -> bool) {
    && rest != [] && path != [] && rest[|rest| - 1] == path[|path| - 1]
    && (forall v :: v in rest ==> v in path) && Open(rest, noAlias)
  }

  lemma OpenTail(path: seq<Value>, noAlias: (Value, Value) -> bool)
    requires |path| >= 2 && Open(path, noAlias)
    ensures EndOf(path[1..], path, noAlias)
  {
    forall i, j | 0 <= i < j < |path[1..]| ensures !noAlias(path[1..][i], path[1..][j]) {
      assert !noAlias(path[i + 1], path[j + 1]);
    }
  }

  /** A start in front of what is left of the path behind it. */
  lemma OpenCons(x: Value, rest: seq<Value>, path: seq<Value>, noAlias: (Value, Value) -> bool)
    requires path != [] && x == path[0] && Open(path, noAlias) && |path| >= 2 && EndOf(rest, path[1..], noAlias)
    ensures EndOf([x] + rest, path, noAlias)
  {
    var longer := [x] + rest;
    forall i, j | 0 <= i < j < |longer| ensures !noAlias(longer[i], longer[j]) {
      assert longer[j] == rest[j - 1];
      if i == 0 {
        assert rest[j - 1] in path[1..];
        var k :| 0 <= k < |path[1..]| && path[1..][k] == rest[j - 1];
        assert !noAlias(path[0], path[k + 1]);
      } else {
        assert !noAlias(rest[i - 1], rest[j - 1]);
      }
    }
  }

  lemma EndOfEnd(last: seq<Value>, rest: seq<Value>, path: seq<Value>, noAlias: (Value, Value) -> bool)
    requires EndOf(last, rest, noAlias) && EndOf(rest, path, noAlias)
    ensures EndOf(last, path, noAlias)
  {
  }

  /** The end of a path behind its last visit to `phi`. */
  lemma {:induction false} LastPassage(sets: AliasSets, phi: Value, path: seq<Value>, noAlias: (Value, Value) -> bool)
    returns (rest: seq<Value>)
    requires phi in sets && AliasPath(sets, path) && phi in path && Open(path, noAlias)
    ensures AliasPath(sets, rest) && rest[0] == phi && Avoids(rest, phi) && EndOf(rest, path, noAlias)
    decreases |path|
  {
    if Avoids(path, phi) {
      rest := path;
    } else {
      assert |path| > 2;
      PathTail(sets, path);
      OpenTail(path, noAlias);
      rest := LastPassage(sets, phi, path[1..], noAlias);
    }
  }

  /** Behind `phi`, the path from the last member of its set on. */
  lemma {:induction false} LastMember(sets: AliasSets, phi: Value, path: seq<Value>, noAlias: (Value, Value) -> bool)
    returns (rest: seq<Value>)
    requires phi in sets && AliasPath(sets, path) && Avoids(path, phi) && path[0] in sets[phi] && path[0] != phi
    requires Open(path, noAlias)
    ensures AliasPath(sets, rest) && Avoids(rest, phi) && EndOf(rest, path, noAlias)
    ensures rest[0] in PhisIn(sets, phi) && rest[0] != phi && rest[1] !in PhisIn(sets, phi)
    decreases |path|
  {
    if path[1] in PhisIn(sets, phi) {
      assert path[1] != phi;
      PathTail(sets, path);
      OpenTail(path, noAlias);
      rest := LastMember(sets, phi, path[1..], noAlias);
    } else {
      rest := path;
    }
  }

  /** A path that keeps away from `phi` is still there. */
  lemma KeptPath(sets: AliasSets, phi: Value, noAlias: (Value, Value) -> bool, path: seq<Value>)
    requires phi in sets && AliasPath(sets, path) && Avoids(path, phi) && path[0] != phi
    ensures AliasPath(Visited(sets, phi, noAlias), path)
  {
  }

  /** From `phi` past the members of its set that are replaced. */
  lemma FromThePhi(sets: AliasSets, phi: Value, noAlias: (Value, Value) -> bool, path: seq<Value>) returns (kept: seq<Value>)
    requires phi in sets && AliasPath(sets, path) && path[0] == phi && Avoids(path, phi) && Open(path, noAlias)
    ensures AliasPath(Visited(sets, phi, noAlias), kept) && kept[0] == phi && EndOf(kept, path, noAlias)
  {
    if path[1] !in sets {
      kept := path;
    } else {
      PathTail(sets, path);
      OpenTail(path, noAlias);
      var rest := LastMember(sets, phi, path[1..], noAlias);
      kept := [phi] + rest[1..];
      assert rest[0 + 1] in sets[rest[0]];
      OpenTail(rest, noAlias);
      EndOfEnd(rest[1..], rest, path[1..], noAlias);
      OpenCons(phi, rest[1..], path, noAlias);
      assert !noAlias(kept[0], kept[1]);
      assert rest[1] in Behind(sets, phi, noAlias);
      if |rest| > 2 {
        PathTail(sets, rest);
        KeptPath(sets, phi, noAlias, rest[1..]);
        PathCons(Visited(sets, phi, noAlias), phi, rest[1..]);
      }
    }
  }

  lemma PathCons(sets: AliasSets, x: Value, path: seq<Value>)
    requires AliasPath(sets, path) && x in sets && path[0] in sets[x]
    ensures AliasPath(sets, [x] + path)
  {
    var longer := [x] + path;
    forall i | 0 <= i < |longer| - 1 ensures longer[i] in sets && longer[i + 1] in sets[longer[i]] {
      if i > 0 { assert path[i - 1] in sets && path[(i - 1) + 1] in sets[path[i - 1]]; }
    }
  }

  /** An open path is still there behind a visit, perhaps with some phis left out. */
  lemma {:induction false} VisitLosesNothing(sets: AliasSets, phi: Value, noAlias: (Value, Value) -> bool, path: seq<Value>)
    returns (kept: seq<Value>)
    requires phi in sets && AliasPath(sets, path) && Open(path, noAlias)
    ensures AliasPath(Visited(sets, phi, noAlias), kept) && kept[0] == path[0] && EndOf(kept, path, noAlias)
    decreases |path|
  {
    if path[0] == phi {
      var rest := LastPassage(sets, phi, path, noAlias);
      kept := FromThePhi(sets, phi, noAlias, rest);
      EndOfEnd(kept, rest, path, noAlias);
    } else if |path| == 2 {
      kept := path;
    } else {
      PathTail(sets, path);
      OpenTail(path, noAlias);
      var rest := VisitLosesNothing(sets, phi, noAlias, path[1..]);
      kept := [path[0]] + rest;
      assert path[0 + 1] in sets[path[0]];
      PathCons(Visited(sets, phi, noAlias), path[0], rest);
      OpenCons(path[0], rest, path, noAlias);
    }
  }

  /** A visit adds no root to any phi, and loses none to which a path leads that is never ruled out. */
  lemma VisitKeepsRoots(sets: AliasSets, phi: Value, noAlias: (Value, Value) -> bool)
    requires phi in sets
    ensures forall x, v :: Roots(Visited(sets, phi, noAlias), x, v) ==> Roots(sets, x, v)
    ensures forall x, v :: OpenRoots(sets, x, v, noAlias) ==> OpenRoots(Visited(sets, phi, noAlias), x, v, noAlias)
  {
    var after := Visited(sets, phi, noAlias);
    forall x, v | Roots(after, x, v) ensures Roots(sets, x, v) {
      var path :| AliasPath(after, path) && path[0] == x && path[|path| - 1] == v;
      VisitAddsNothing(sets, phi, noAlias, path);
    }
    forall x, v | OpenRoots(sets, x, v, noAlias) ensures OpenRoots(after, x, v, noAlias) {
      var path :| AliasPath(sets, path) && Open(path, noAlias) && path[0] == x && path[|path| - 1] == v;
      var kept := VisitLosesNothing(sets, phi, noAlias, path);
    }
  }

  /** What is ruled out for the phi that is visited, and only that, is not taken over from the phis in its set. */
  lemma VisitTakes(sets: AliasSets, phi: Value, noAlias: (Value, Value) -> bool, q: Value, v: Value)
    requires phi in sets && q in sets[phi] && q in sets && v in sets[q] && v !in sets[phi]
    ensures v in Visited(sets, phi, noAlias)[phi] <==> !noAlias(phi, v)
  {
    if !noAlias(phi, v) { assert q in PhisIn(sets, phi); }
  }

  /** Where every pair may alias, no path is ruled out. */
  lemma AllOpen(sets: AliasSets, noAlias: (Value, Value) -> bool, x: Value, v: Value)
    requires MayAlias(noAlias) && Roots(sets, x, v)
    ensures OpenRoots(sets, x, v, noAlias)
  {
    var path :| AliasPath(sets, path) && path[0] == x && path[|path| - 1] == v;
    assert Open(path, noAlias);
  }

  // ----- the loop -----

  predicate NoPhis(sets: AliasSets) {
    forall p :: p in sets ==> PhisIn(sets, p) == {}
  }

  /** No phi gets a value that the alias analysis rules out for it. */
  ghost predicate NoneRuledOut(sets: AliasSets, later: AliasSets, noAlias: (Value, Value) -> bool) {
    forall x, v :: x in later && x in sets && v in later[x] ==> v in sets[x] || !noAlias(x, v)
  }

  /** Roots are kept from one state of the loop to a later one, except where they are ruled out. */
  ghost predicate RootsKept(sets: AliasSets, later: AliasSets, noAlias: (Value, Value) -> bool) {
    && later.Keys == sets.Keys && NoneRuledOut(sets, later, noAlias)
    && (forall x, v :: Roots(later, x, v) ==> Roots(sets, x, v))
    && forall x, v :: OpenRoots(sets, x, v, noAlias) ==> OpenRoots(later, x, v, noAlias)
  }

  /** A state without phis in the sets: each set is what is left of the roots. */
  lemma SetsAreRoots(sets: AliasSets, later: AliasSets, noAlias: (Value, Value) -> bool, p: Value)
    requires RootsKept(sets, later, noAlias) && NoPhis(later) && p in later
    ensures forall v :: v in later[p] ==> v !in sets && Roots(sets, p, v) && (v in sets[p] || !noAlias(p, v))
    ensures forall v :: OpenRoots(sets, p, v, noAlias) ==> v in later[p]
    ensures MayAlias(noAlias) ==> forall v :: Roots(sets, p, v) ==> v in later[p]
  {
    forall v | v in later[p] ensures v !in sets && Roots(sets, p, v) && (v in sets[p] || !noAlias(p, v)) {
      assert v !in PhisIn(later, p);
      RootsCons(later, p, v, v);
    }
    forall v | OpenRoots(sets, p, v, noAlias) ensures v in later[p] {
      assert OpenRoots(later, p, v, noAlias);
      var path :| AliasPath(later, path) && Open(path, noAlias) && path[0] == p && path[|path| - 1] == v;
      assert path[0 + 1] in later[path[0]];
      assert path[1] !in PhisIn(later, p);
    }
    if MayAlias(noAlias) {
      forall v | Roots(sets, p, v) ensures v in later[p] { AllOpen(sets, noAlias, p, v); }
    }
  }

  lemma RootsKeptOn(sets: AliasSets, later: AliasSets, phi: Value, noAlias: (Value, Value) -> bool)
    requires RootsKept(sets, later, noAlias) && phi in later
    ensures RootsKept(sets, Visited(later, phi, noAlias), noAlias)
  {
    VisitKeepsRoots(later, phi, noAlias);
    NoneRuledOutOn(sets, later, phi, noAlias);
  }

  lemma NoneRuledOutOn(sets: AliasSets, later: AliasSets, phi: Value, noAlias: (Value, Value) -> bool)
    requires later.Keys == sets.Keys && NoneRuledOut(sets, later, noAlias) && phi in later
    ensures NoneRuledOut(sets, Visited(later, phi, noAlias), noAlias)
  {
  }

  function VisitedAll(sets: AliasSets, phis: seq<Value>, noAlias: (Value, Value) -> bool): (r: AliasSets)
    requires forall p :: p in phis ==> p in sets
    ensures r.Keys == sets.Keys
    decreases |phis|
  {
    if phis == [] then sets else VisitedAll(Visited(sets, phis[0], noAlias), phis[1..], noAlias)
  }

  /**
    Partial correctness, for any graph, any order of visits and any alias analysis: when no phi is left, each set holds
    roots only, none that is ruled out for its phi, and all of those to which a path leads that is never ruled out.
   */
  lemma {:induction false} WhenItStops(sets: AliasSets, phis: seq<Value>, noAlias: (Value, Value) -> bool, p: Value)
    requires (forall q :: q in phis ==> q in sets) && NoPhis(VisitedAll(sets, phis, noAlias)) && p in sets
    ensures var final := VisitedAll(sets, phis, noAlias);
            && p in final
            && (forall v :: v in final[p] ==> v !in sets && Roots(sets, p, v) && (v in sets[p] || !noAlias(p, v)))
            && (forall v :: OpenRoots(sets, p, v, noAlias) ==> v in final[p])
            && (MayAlias(noAlias) ==> forall v :: Roots(sets, p, v) ==> v in final[p])
  {
    assert RootsKept(sets, sets, noAlias);
    VisitsKeepRoots(sets, sets, phis, noAlias);
    SetsAreRoots(sets, VisitedAll(sets, phis, noAlias), noAlias, p);
  }

  lemma {:induction false} VisitsKeepRoots(sets: AliasSets, later: AliasSets, phis: seq<Value>, noAlias: (Value, Value) -> bool)
    requires RootsKept(sets, later, noAlias) && forall p :: p in phis ==> p in later
    ensures RootsKept(sets, VisitedAll(later, phis, noAlias), noAlias)
    decreases |phis|
  {
    if phis != [] {
      RootsKeptOn(sets, later, phis[0], noAlias);
      VisitsKeepRoots(sets, Visited(later, phis[0], noAlias), phis[1..], noAlias);
    }
  }

  function RulesOut(phi: Value, alias: Value): (Value, Value) -> bool {
    (p: Value, v: Value) => p == phi && v == alias
  }

  /** Two phis: what is ruled out for the first is not taken over, and the rest behind the second is. */
  lemma OneRuledOut()
    ensures var sets := map[Src(0) := {Src(1), Src(2)}, Src(1) := {Src(3), Src(4)}];
            var noAlias := RulesOut(Src(0), Src(3));
            Visited(sets, Src(0), noAlias) == sets[Src(0) := {Src(2), Src(4)}]
  {
    var sets := map[Src(0) := {Src(1), Src(2)}, Src(1) := {Src(3), Src(4)}];
    var noAlias := RulesOut(Src(0), Src(3));
    assert PhisIn(sets, Src(0)) == {Src(1)};
    assert Src(1) in PhisIn(sets, Src(0)) && Src(4) in sets[Src(1)] && !noAlias(Src(0), Src(4));
    assert Behind(sets, Src(0), noAlias) == {Src(4)};
    assert {Src(1), Src(2)} + {Src(4)} - {Src(1)} == {Src(2), Src(4)};
  }

  // ----- when it stops -----

  /** From phi to phi along the alias sets. */
  predicate Chain(sets: AliasSets, path: seq<Value>) {
    path != [] && forall i :: 0 <= i < |path| - 1 ==> path[i] in sets && path[i + 1] in PhisIn(sets, path[i])
  }

  ghost predicate Leads(sets: AliasSets, p: Value, q: Value) {
    exists path :: Chain(sets, path) && |path| > 1 && path[0] == p && path[|path| - 1] == q
  }

  /** A phi that leads back to itself has one phi in its set. */
  ghost predicate SimpleCycles(sets: AliasSets) {
    forall p, a, b :: p in sets && Leads(sets, p, p) && a in PhisIn(sets, p) && b in PhisIn(sets, p) ==> a == b
  }

  ghost function Cyclic(sets: AliasSets): set<Value> {
    set p | p in sets && Leads(sets, p, p)
  }

  ghost function Led(sets: AliasSets): set<(Value, Value)> {
    set p, q | p in sets && q in sets && Leads(sets, p, q) :: (p, q)
  }

  lemma LeadsOne(sets: AliasSets, p: Value, q: Value)
    requires p in sets && q in PhisIn(sets, p)
    ensures Leads(sets, p, q)
  {
    assert Chain(sets, [p, q]);
  }

  lemma LeadsOn(sets: AliasSets, p: Value, q: Value, r: Value)
    requires Leads(sets, p, q) && Leads(sets, q, r)
    ensures Leads(sets, p, r)
  {
    var path :| Chain(sets, path) && |path| > 1 && path[0] == p && path[|path| - 1] == q;
    var more :| Chain(sets, more) && |more| > 1 && more[0] == q && more[|more| - 1] == r;
    var whole := path + more[1..];
    forall i | 0 <= i < |whole| - 1 ensures whole[i] in sets && whole[i + 1] in PhisIn(sets, whole[i]) {
      if i >= |path| - 1 {
        var k := i - (|path| - 1);
        assert whole[i] == more[k] && whole[i + 1] == more[k + 1];
      }
    }
    assert Chain(sets, whole);
  }

  lemma LeadsFirst(sets: AliasSets, p: Value, r: Value) returns (q: Value)
    requires Leads(sets, p, r)
    ensures p in sets && q in PhisIn(sets, p) && (q == r || Leads(sets, q, r))
  {
    var path :| Chain(sets, path) && |path| > 1 && path[0] == p && path[|path| - 1] == r;
    assert path[0 + 1] in PhisIn(sets, path[0]);
    q := path[1];
    if |path| > 2 {
      ChainTail(sets, path);
      assert Leads(sets, q, r);
    }
  }

  lemma ChainTail(sets: AliasSets, path: seq<Value>)
    requires Chain(sets, path) && |path| > 1
    ensures Chain(sets, path[1..]) && path[0] in sets && path[1] in PhisIn(sets, path[0])
  {
    assert path[0 + 1] in PhisIn(sets, path[0]);
    forall i | 0 <= i < |path[1..]| - 1 ensures path[1..][i] in sets && path[1..][i + 1] in PhisIn(sets, path[1..][i]) {
      assert path[(i + 1) + 1] in PhisIn(sets, path[i + 1]);
    }
  }

  lemma LeadsLast(sets: AliasSets, p: Value, r: Value) returns (path: seq<Value>)
    requires Leads(sets, p, r)
    ensures Chain(sets, path) && path[0] == p && path[|path| - 1] in sets && r in PhisIn(sets, path[|path| - 1])
  {
    var whole :| Chain(sets, whole) && |whole| > 1 && whole[0] == p && whole[|whole| - 1] == r;
    path := whole[..|whole| - 1];
    assert whole[(|whole| - 2) + 1] in PhisIn(sets, whole[|whole| - 2]);
  }

  lemma ChainLeads(sets: AliasSets, path: seq<Value>)
    requires Chain(sets, path)
    ensures path[0] == path[|path| - 1] || Leads(sets, path[0], path[|path| - 1])
  {
  }

  /** After a visit no phi leads where it did not lead before. */
  lemma {:induction false} VisitLeads(sets: AliasSets, phi: Value, noAlias: (Value, Value) -> bool, path: seq<Value>)
    requires phi in sets && Chain(Visited(sets, phi, noAlias), path) && |path| > 1
    ensures Leads(sets, path[0], path[|path| - 1])
    decreases |path|
  {
    var after := Visited(sets, phi, noAlias);
    var x, y, v := path[0], path[1], path[|path| - 1];
    ChainTail(after, path);
    if y in sets[x] {
      LeadsOne(sets, x, y);
    } else {
      var q :| q in PhisIn(sets, phi) && y in sets[q];
      LeadsOne(sets, phi, q);
      LeadsOne(sets, q, y);
      LeadsOn(sets, phi, q, y);
    }
    if |path| > 2 {
      VisitLeads(sets, phi, noAlias, path[1..]);
      LeadsOn(sets, x, y, v);
    }
  }

  lemma LedBefore(sets: AliasSets, phi: Value, noAlias: (Value, Value) -> bool)
    requires phi in sets
    ensures forall p, q :: Leads(Visited(sets, phi, noAlias), p, q) ==> Leads(sets, p, q)
    ensures Cyclic(Visited(sets, phi, noAlias)) <= Cyclic(sets) && Led(Visited(sets, phi, noAlias)) <= Led(sets)
  {
    var after := Visited(sets, phi, noAlias);
    forall p, q | Leads(after, p, q) ensures Leads(sets, p, q) {
      var path :| Chain(after, path) && |path| > 1 && path[0] == p && path[|path| - 1] == q;
      VisitLeads(sets, phi, noAlias, path);
    }
  }

  /** The phis in a set behind a visit. */
  lemma PhisVisited(sets: AliasSets, phi: Value, noAlias: (Value, Value) -> bool, p: Value, y: Value)
    requires phi in sets && p in sets && y in PhisIn(Visited(sets, phi, noAlias), p)
    ensures if p != phi then y in PhisIn(sets, p)
            else y !in PhisIn(sets, phi) && exists q :: q in PhisIn(sets, phi) && y in PhisIn(sets, q)
  {
    if p == phi {
      var q :| q in PhisIn(sets, phi) && y in sets[q];
      assert y in PhisIn(sets, q);
    }
  }

  /** Where a chain from a phi on a cycle goes there is no choice, and no way off the cycle. */
  lemma {:induction false} ChainOnCycle(sets: AliasSets, path: seq<Value>, i: nat)
    requires SimpleCycles(sets) && Chain(sets, path) && Leads(sets, path[0], path[0]) && i < |path|
    ensures path[i] in sets && Leads(sets, path[i], path[i])
    decreases |path|
  {
    var first := LeadsFirst(sets, path[0], path[0]);
    if i > 0 {
      ChainTail(sets, path);
      assert path[1] == first;
      LeadsOne(sets, path[0], path[1]);
      if path[1] != path[0] { LeadsOn(sets, path[1], path[0], path[1]); }
      ChainOnCycle(sets, path[1..], i - 1);
    }
  }

  lemma SimpleStays(sets: AliasSets, phi: Value, noAlias: (Value, Value) -> bool)
    requires phi in sets && SimpleCycles(sets)
    ensures SimpleCycles(Visited(sets, phi, noAlias))
  {
    var after := Visited(sets, phi, noAlias);
    LedBefore(sets, phi, noAlias);
    forall p, a, b | p in after && Leads(after, p, p) && a in PhisIn(after, p) && b in PhisIn(after, p) ensures a == b {
      PhisVisited(sets, phi, noAlias, p, a);
      PhisVisited(sets, phi, noAlias, p, b);
      if p == phi {
        var q :| q in PhisIn(sets, phi) && a in PhisIn(sets, q);
        assert Chain(sets, [phi, q]);
        ChainOnCycle(sets, [phi, q], 1);
      }
    }
  }

  /** The end of a chain behind its last return to where it starts. */
  lemma {:induction false} LastReturn(sets: AliasSets, q: Value, path: seq<Value>) returns (rest: seq<Value>)
    requires Chain(sets, path) && q in path
    ensures Chain(sets, rest) && rest[0] == q && rest[|rest| - 1] == path[|path| - 1] && q !in rest[1..]
    decreases |path|
  {
    if path[0] == q && q !in path[1..] {
      rest := path;
    } else {
      assert path == [path[0]] + path[1..];
      ChainTail(sets, path);
      rest := LastReturn(sets, q, path[1..]);
    }
  }

  /** Two chains from a phi on a cycle run together. */
  lemma {:induction false} SameChains(sets: AliasSets, path: seq<Value>, other: seq<Value>, i: nat)
    requires SimpleCycles(sets) && Chain(sets, path) && Chain(sets, other) && path[0] == other[0]
    requires Leads(sets, path[0], path[0]) && i < |path| && i < |other|
    ensures path[i] == other[i]
  {
    if i > 0 {
      SameChains(sets, path, other, i - 1);
      ChainOnCycle(sets, path, i - 1);
      assert path[(i - 1) + 1] in PhisIn(sets, path[i - 1]) && other[(i - 1) + 1] in PhisIn(sets, other[i - 1]);
    }
  }

  /** On a cycle each phi has one predecessor: two chains to predecessors of `q` end in the same one, or one has come back. */
  lemma OnePredecessor(sets: AliasSets, q: Value, path: seq<Value>, other: seq<Value>)
    requires SimpleCycles(sets) && Leads(sets, q, q) && Chain(sets, path) && Chain(sets, other) && |path| <= |other|
    requires path[0] == q && other[0] == q
    requires path[|path| - 1] in sets && q in PhisIn(sets, path[|path| - 1])
    ensures path[|path| - 1] == other[|other| - 1] || q in other[1..]
  {
    var i := |path| - 1;
    SameChains(sets, path, other, i);
    if |other| > |path| {
      ChainOnCycle(sets, path, i);
      assert other[i + 1] in PhisIn(sets, other[i]);
      assert other[1..][i] == q;
    }
  }

  /** A visit to a phi on a cycle takes a phi off it. */
  lemma CyclicFalls(sets: AliasSets, phi: Value, noAlias: (Value, Value) -> bool)
    requires phi in sets && SimpleCycles(sets) && phi in Cyclic(sets)
    ensures Cyclic(Visited(sets, phi, noAlias)) < Cyclic(sets)
  {
    var after := Visited(sets, phi, noAlias);
    LedBefore(sets, phi, noAlias);
    var q := LeadsFirst(sets, phi, phi);
    assert Chain(sets, [phi, q]);
    ChainOnCycle(sets, [phi, q], 1);
    if Leads(after, q, q) {
      var back := LeadsLast(after, q, q);
      var y := back[|back| - 1];
      PhisVisited(sets, phi, noAlias, y, q);
      assert y != phi;
      NoOtherWayBack(sets, phi, noAlias, q, back);
    }
    assert q in Cyclic(sets) && q !in Cyclic(after);
  }

  lemma NoOtherWayBack(sets: AliasSets, phi: Value, noAlias: (Value, Value) -> bool, q: Value, back: seq<Value>)
    requires phi in sets && SimpleCycles(sets) && phi in Cyclic(sets) && q in PhisIn(sets, phi) && Leads(sets, q, q)
    requires Chain(Visited(sets, phi, noAlias), back) && back[0] == q
    requires var y := back[|back| - 1]; y in sets && q in PhisIn(sets, y)
    ensures back[|back| - 1] == phi
  {
    var y := back[|back| - 1];
    LedBefore(sets, phi, noAlias);
    ChainLeads(Visited(sets, phi, noAlias), back);
    var toY := ChainFrom(sets, q, y);
    var first := LeadsFirst(sets, phi, phi);
    var toPhi := ChainFrom(sets, q, phi);
    if |toY| <= |toPhi| {
      OnePredecessor(sets, q, toY, toPhi);
    } else {
      OnePredecessor(sets, q, toPhi, toY);
    }
  }

  lemma ChainFrom(sets: AliasSets, q: Value, y: Value) returns (path: seq<Value>)
    requires q == y || Leads(sets, q, y)
    ensures Chain(sets, path) && path[0] == q && path[|path| - 1] == y && q !in path[1..]
  {
    if q == y {
      path := [q];
    } else {
      var whole :| Chain(sets, whole) && |whole| > 1 && whole[0] == q && whole[|whole| - 1] == y;
      path := LastReturn(sets, q, whole);
    }
  }

  /** Without cycles, one of some phis is led to by none of them. */
  lemma {:induction false} TopMember(sets: AliasSets, s: set<Value>) returns (m: Value)
    requires s != {} && s <= sets.Keys && Cyclic(sets) == {}
    ensures m in s && forall p :: p in s ==> !Leads(sets, p, m)
    decreases s
  {
    m :| m in s;
    assert m !in Cyclic(sets);
    if s != {m} {
      var t := TopMember(sets, s - {m});
      if Leads(sets, m, t) {
        forall p | p in s ensures !Leads(sets, p, m) {
          if p != m && Leads(sets, p, m) { LeadsOn(sets, p, m, t); }
        }
      } else {
        assert forall p :: p in s ==> p == m || p in s - {m};
        m := t;
      }
    }
  }

  /** Without cycles, a visit that finds a phi leaves it led to by fewer. */
  lemma LedFalls(sets: AliasSets, phi: Value, noAlias: (Value, Value) -> bool)
    requires phi in sets && Cyclic(sets) == {} && PhisIn(sets, phi) != {}
    ensures Led(Visited(sets, phi, noAlias)) < Led(sets)
  {
    var after := Visited(sets, phi, noAlias);
    LedBefore(sets, phi, noAlias);
    var q := TopMember(sets, PhisIn(sets, phi));
    LeadsOne(sets, phi, q);
    assert (phi, q) in Led(sets);
    if Leads(after, phi, q) {
      var path := LeadsLast(after, phi, q);
      var y := path[|path| - 1];
      PhisVisited(sets, phi, noAlias, y, q);
      ChainLeads(after, path);
      var p := LeadsFirst(sets, phi, y);
      LeadsOne(sets, y, q);
      if p != y { LeadsOn(sets, p, y, q); }
      assert false;
    }
  }

  type Rank = Value -> nat

  ghost predicate Ranked(sets: AliasSets, rank: Rank) {
    forall p, q :: p in sets && q in PhisIn(sets, p) ==> rank(q) < rank(p)
  }

  lemma {:induction false} RankFalls(sets: AliasSets, rank: Rank, path: seq<Value>)
    requires Ranked(sets, rank) && Chain(sets, path) && |path| > 1
    ensures rank(path[|path| - 1]) < rank(path[0])
    decreases |path|
  {
    ChainTail(sets, path);
    if |path| > 2 { RankFalls(sets, rank, path[1..]); }
  }

  /** Phis that are ranked, and sets with one phi at most, as those of two pointers a loop swaps, have simple cycles. */
  lemma SimpleWhen(sets: AliasSets, rank: Rank)
    requires Ranked(sets, rank) || forall p, a, b :: p in sets && a in PhisIn(sets, p) && b in PhisIn(sets, p) ==> a == b
    ensures SimpleCycles(sets)
  {
    if Ranked(sets, rank) {
      forall p | Leads(sets, p, p) ensures false {
        var path :| Chain(sets, path) && |path| > 1 && path[0] == p && path[|path| - 1] == p;
        RankFalls(sets, rank, path);
      }
    }
  }

  lemma NothingToVisit(sets: AliasSets, phi: Value, noAlias: (Value, Value) -> bool)
    requires phi in sets && PhisIn(sets, phi) == {}
    ensures Visited(sets, phi, noAlias) == sets
  {
    assert Behind(sets, phi, noAlias) == {};
  }

  /** What a sweep has achieved, the phis of `todo` still to be visited. */
  ghost predicate Swept(before: AliasSets, sets: AliasSets, todo: set<Value>, changed: bool) {
    && Cyclic(sets) <= Cyclic(before) && Led(sets) <= Led(before)
    && (Cyclic(sets) == Cyclic(before) ==> Cyclic(before) <= todo)
    && if changed then Cyclic(before) == {} ==> Led(sets) < Led(before)
       else sets == before && forall p :: p in sets && p !in todo ==> PhisIn(sets, p) == {}
  }

  lemma SweptOn(before: AliasSets, sets: AliasSets, todo: set<Value>, changed: bool, phi: Value, noAlias: (Value, Value) -> bool)
    requires Swept(before, sets, todo, changed) && SimpleCycles(sets) && phi in sets
    ensures Swept(before, Visited(sets, phi, noAlias), todo - {phi}, changed || PhisIn(sets, phi) != {})
  {
    LedBefore(sets, phi, noAlias);
    if phi in Cyclic(sets) {
      var q := LeadsFirst(sets, phi, phi);
      CyclicFalls(sets, phi, noAlias);
    } else if PhisIn(sets, phi) == {} {
      NothingToVisit(sets, phi, noAlias);
    } else if Cyclic(sets) == {} {
      LedFalls(sets, phi, noAlias);
    }
  }

  /** The one set that has changed. */
  predicate OnlyAt(before: AliasSets, after: AliasSets, phi: Value, s: set<Value>)
  {
    phi in before && after.Keys == before.Keys && after[phi] == s && forall p :: p in before && p != phi ==> after[p] == before[p]
  }

  /** The alias sets of all pointer phis, `PHINodePointerAliasInfo` of each. */
  class PHINodeAliases {
    var aliasSets: AliasSets

    constructor (aliasSets: AliasSets)
      ensures this.aliasSets == aliasSets
    {
      this.aliasSets := aliasSets;
    }

    method AddAlias(phi: Value, alias: Value) returns (added: bool)
      requires phi in aliasSets
      modifies this
      ensures aliasSets == old(aliasSets)[phi := old(aliasSets)[phi] + {alias}]
      ensures added == (alias !in old(aliasSets)[phi])
    {
      added := alias !in aliasSets[phi];
      aliasSets := aliasSets[phi := aliasSets[phi] + {alias}];
    }

    method RemoveAlias(phi: Value, alias: Value) returns (removed: bool)
      requires phi in aliasSets
      modifies this
      ensures aliasSets == old(aliasSets)[phi := old(aliasSets)[phi] - {alias}]
      ensures removed == (alias in old(aliasSets)[phi])
    {
      removed := alias in aliasSets[phi];
      aliasSets := aliasSets[phi := aliasSets[phi] - {alias}];
    }

    /** What a visit is going to add and to remove. */
    method Collect(phi: Value, noAlias: (Value, Value) -> bool) returns (valuesToAdd: set<Value>, valuesToRemove: set<Value>)
      requires phi in aliasSets
      ensures valuesToAdd == Behind(aliasSets, phi, noAlias) && valuesToRemove == PhisIn(aliasSets, phi)
    {
      valuesToAdd, valuesToRemove := {}, {};
      var todo := aliasSets[phi];
      while todo != {}
        invariant todo <= aliasSets[phi]
        invariant valuesToRemove == (aliasSets[phi] - todo) * aliasSets.Keys
        invariant valuesToAdd == set q, v | q in valuesToRemove && v in aliasSets[q] && !noAlias(phi, v) :: v
        decreases todo
      {
        var alias :| alias in todo;
        if alias in aliasSets {
          valuesToAdd := valuesToAdd + set v | v in aliasSets[alias] && !noAlias(phi, v);
          valuesToRemove := valuesToRemove + {alias};
        }
        todo := todo - {alias};
      }
      assert aliasSets[phi] - todo == aliasSets[phi];
    }

    method AddAliases(phi: Value, values: set<Value>) returns (changed: bool)
      requires phi in aliasSets
      modifies this
      ensures OnlyAt(old(aliasSets), aliasSets, phi, old(aliasSets)[phi] + values) && (changed ==> values != {})
    {
      ghost var before := aliasSets;
      changed := false;
      var todo := values;
      while todo != {}
        invariant todo <= values && OnlyAt(before, aliasSets, phi, before[phi] + (values - todo))
        invariant changed ==> values != {}
        decreases todo
      {
        var v :| v in todo;
        var added := AddAlias(phi, v);
        changed := changed || added;
        todo := todo - {v};
      }
      assert values - todo == values;
    }

    method RemoveAliases(phi: Value, values: set<Value>) returns (changed: bool)
      requires phi in aliasSets && values <= aliasSets[phi]
      modifies this
      ensures OnlyAt(old(aliasSets), aliasSets, phi, old(aliasSets)[phi] - values) && changed == (values != {})
    {
      ghost var before := aliasSets;
      changed := false;
      var todo := values;
      while todo != {}
        invariant todo <= values && OnlyAt(before, aliasSets, phi, before[phi] - (values - todo))
        invariant changed == (values - todo != {})
        decreases todo
      {
        var v :| v in todo;
        var removed := RemoveAlias(phi, v);
        changed := changed || removed;
        todo := todo - {v};
      }
      assert values - todo == values;
    }

    method VisitPhi(phi: Value, noAlias: (Value, Value) -> bool) returns (changed: bool)
      requires phi in aliasSets
      modifies this
      ensures aliasSets == Visited(old(aliasSets), phi, noAlias) && changed == (PhisIn(old(aliasSets), phi) != {})
    {
      var valuesToAdd, valuesToRemove := Collect(phi, noAlias);
      var added := AddAliases(phi, valuesToAdd);
      var removed := RemoveAliases(phi, valuesToRemove);
      changed := added || removed;
    }

    /** The loop: where every cycle is simple it ends, without phis in the sets and with the roots that are not ruled out. */
    method ResolveAliases(noAlias: (Value, Value) -> bool)
      requires SimpleCycles(aliasSets)
      modifies this
      ensures NoPhis(aliasSets) && RootsKept(old(aliasSets), aliasSets, noAlias)
    {
      ghost var start := aliasSets;
      var changed := true;
      while changed
        invariant SimpleCycles(aliasSets) && RootsKept(start, aliasSets, noAlias)
        invariant !changed ==> NoPhis(aliasSets)
        decreases Cyclic(aliasSets), Led(aliasSets), changed
      {
        changed := false;
        ghost var before := aliasSets;
        var todo := aliasSets.Keys;
        while todo != {}
          invariant todo <= aliasSets.Keys && SimpleCycles(aliasSets) && RootsKept(start, aliasSets, noAlias)
          invariant Swept(before, aliasSets, todo, changed)
          decreases todo
        {
          var phi :| phi in todo;
          SimpleStays(aliasSets, phi, noAlias);
          RootsKeptOn(start, aliasSets, phi, noAlias);
          SweptOn(before, aliasSets, todo, changed, phi, noAlias);
          var visited := VisitPhi(phi, noAlias);
          changed := changed || visited;
          todo := todo - {phi};
        }
      }
    }
  }

  // ----- and need not stop otherwise -----

  /** Five phis that name each other. */
  function Five(a: set<Value>, b: set<Value>, c: set<Value>, d: set<Value>, e: set<Value>): AliasSets {
    map[Src(0) := a, Src(1) := b, Src(2) := c, Src(3) := d, Src(4) := e]
  }

  function Never(): (Value, Value) -> bool {
    (p: Value, v: Value) => false
  }

  /** The order of the visits. */
  predicate InOrder(phis: seq<Value>) {
    |phis| == 5 && forall i :: 0 <= i < 5 ==> phis[i] == Src(i)
  }

  function Pair(i: nat, j: nat): set<Value> {
    {Src(i), Src(j)}
  }

  function Triple(i: nat, j: nat, k: nat): set<Value> {
    {Src(i), Src(j), Src(k)}
  }

  /** A visit to a phi whose set holds phis only. */
  lemma VisitPair(sets: AliasSets, phi: Value, i: nat, j: nat)
    requires phi in sets && sets[phi] == Pair(i, j) && Src(i) in sets && Src(j) in sets
    ensures Visited(sets, phi, Never()) == sets[phi := sets[Src(i)] + sets[Src(j)] - Pair(i, j)]
  {
    assert PhisIn(sets, phi) == Pair(i, j);
    forall v | v in sets[Src(i)] + sets[Src(j)] ensures v in Behind(sets, phi, Never()) {
      assert !Never()(phi, v) && Src(i) in PhisIn(sets, phi) && Src(j) in PhisIn(sets, phi);
    }
    assert sets[phi] + Behind(sets, phi, Never()) - PhisIn(sets, phi) == sets[Src(i)] + sets[Src(j)] - Pair(i, j);
  }

  lemma VisitTriple(sets: AliasSets, phi: Value, i: nat, j: nat, k: nat)
    requires phi in sets && sets[phi] == Triple(i, j, k) && Src(i) in sets && Src(j) in sets && Src(k) in sets
    ensures Visited(sets, phi, Never()) == sets[phi := sets[Src(i)] + sets[Src(j)] + sets[Src(k)] - Triple(i, j, k)]
  {
    assert PhisIn(sets, phi) == Triple(i, j, k);
    forall v | v in sets[Src(i)] + sets[Src(j)] + sets[Src(k)] ensures v in Behind(sets, phi, Never()) {
      assert !Never()(phi, v) && Src(i) in PhisIn(sets, phi) && Src(j) in PhisIn(sets, phi) && Src(k) in PhisIn(sets, phi);
    }
    assert sets[phi] + Behind(sets, phi, Never()) - PhisIn(sets, phi)
        == sets[Src(i)] + sets[Src(j)] + sets[Src(k)] - Triple(i, j, k);
  }

  function Before(): AliasSets { Five(Pair(3, 4), Pair(0, 2), Pair(3, 4), Pair(1, 2), Pair(0, 3)) }

  function After(): AliasSets { Five(Triple(0, 1, 2), Triple(1, 3, 4), Triple(0, 1, 2), Triple(0, 3, 4), Triple(1, 2, 4)) }

  lemma Out0()
    ensures Visited(Five(Pair(3, 4), Pair(0, 2), Pair(3, 4), Pair(1, 2), Pair(0, 3)), Src(0), Never())
            == Five(Triple(0, 1, 2), Pair(0, 2), Pair(3, 4), Pair(1, 2), Pair(0, 3))
  {
    VisitPair(Five(Pair(3, 4), Pair(0, 2), Pair(3, 4), Pair(1, 2), Pair(0, 3)), Src(0), 3, 4);
    assert Pair(1, 2) + Pair(0, 3) - Pair(3, 4) == Triple(0, 1, 2);
  }

  lemma Out1()
    ensures Visited(Five(Triple(0, 1, 2), Pair(0, 2), Pair(3, 4), Pair(1, 2), Pair(0, 3)), Src(1), Never())
            == Five(Triple(0, 1, 2), Triple(1, 3, 4), Pair(3, 4), Pair(1, 2), Pair(0, 3))
  {
    VisitPair(Five(Triple(0, 1, 2), Pair(0, 2), Pair(3, 4), Pair(1, 2), Pair(0, 3)), Src(1), 0, 2);
    assert Triple(0, 1, 2) + Pair(3, 4) - Pair(0, 2) == Triple(1, 3, 4);
  }

  lemma Out2()
    ensures Visited(Five(Triple(0, 1, 2), Triple(1, 3, 4), Pair(3, 4), Pair(1, 2), Pair(0, 3)), Src(2), Never())
            == Five(Triple(0, 1, 2), Triple(1, 3, 4), Triple(0, 1, 2), Pair(1, 2), Pair(0, 3))
  {
    VisitPair(Five(Triple(0, 1, 2), Triple(1, 3, 4), Pair(3, 4), Pair(1, 2), Pair(0, 3)), Src(2), 3, 4);
    assert Pair(1, 2) + Pair(0, 3) - Pair(3, 4) == Triple(0, 1, 2);
  }

  lemma Out3()
    ensures Visited(Five(Triple(0, 1, 2), Triple(1, 3, 4), Triple(0, 1, 2), Pair(1, 2), Pair(0, 3)), Src(3), Never())
            == Five(Triple(0, 1, 2), Triple(1, 3, 4), Triple(0, 1, 2), Triple(0, 3, 4), Pair(0, 3))
  {
    VisitPair(Five(Triple(0, 1, 2), Triple(1, 3, 4), Triple(0, 1, 2), Pair(1, 2), Pair(0, 3)), Src(3), 1, 2);
    assert Triple(1, 3, 4) + Triple(0, 1, 2) - Pair(1, 2) == Triple(0, 3, 4);
  }

  lemma Out4()
    ensures Visited(Five(Triple(0, 1, 2), Triple(1, 3, 4), Triple(0, 1, 2), Triple(0, 3, 4), Pair(0, 3)), Src(4), Never())
            == Five(Triple(0, 1, 2), Triple(1, 3, 4), Triple(0, 1, 2), Triple(0, 3, 4), Triple(1, 2, 4))
  {
    VisitPair(Five(Triple(0, 1, 2), Triple(1, 3, 4), Triple(0, 1, 2), Triple(0, 3, 4), Pair(0, 3)), Src(4), 0, 3);
    assert Triple(0, 1, 2) + Triple(0, 3, 4) - Pair(0, 3) == Triple(1, 2, 4);
  }

  lemma SweepOut(phis: seq<Value>)
    requires InOrder(phis)
    ensures VisitedAll(Before(), phis, Never()) == After()
  {
    FiveVisits(Before(), phis, Never());
    Out0();
    Out1();
    Out2();
    Out3();
    Out4();
  }

  lemma Back0()
    ensures Visited(Five(Triple(0, 1, 2), Triple(1, 3, 4), Triple(0, 1, 2), Triple(0, 3, 4), Triple(1, 2, 4)), Src(0), Never())
            == Five(Pair(3, 4), Triple(1, 3, 4), Triple(0, 1, 2), Triple(0, 3, 4), Triple(1, 2, 4))
  {
    VisitTriple(Five(Triple(0, 1, 2), Triple(1, 3, 4), Triple(0, 1, 2), Triple(0, 3, 4), Triple(1, 2, 4)), Src(0), 0, 1, 2);
    assert Triple(0, 1, 2) + Triple(1, 3, 4) + Triple(0, 1, 2) - Triple(0, 1, 2) == Pair(3, 4);
  }

  lemma Back1()
    ensures Visited(Five(Pair(3, 4), Triple(1, 3, 4), Triple(0, 1, 2), Triple(0, 3, 4), Triple(1, 2, 4)), Src(1), Never())
            == Five(Pair(3, 4), Pair(0, 2), Triple(0, 1, 2), Triple(0, 3, 4), Triple(1, 2, 4))
  {
    VisitTriple(Five(Pair(3, 4), Triple(1, 3, 4), Triple(0, 1, 2), Triple(0, 3, 4), Triple(1, 2, 4)), Src(1), 1, 3, 4);
    assert Triple(1, 3, 4) + Triple(0, 3, 4) + Triple(1, 2, 4) - Triple(1, 3, 4) == Pair(0, 2);
  }

  lemma Back2()
    ensures Visited(Five(Pair(3, 4), Pair(0, 2), Triple(0, 1, 2), Triple(0, 3, 4), Triple(1, 2, 4)), Src(2), Never())
            == Five(Pair(3, 4), Pair(0, 2), Pair(3, 4), Triple(0, 3, 4), Triple(1, 2, 4))
  {
    VisitTriple(Five(Pair(3, 4), Pair(0, 2), Triple(0, 1, 2), Triple(0, 3, 4), Triple(1, 2, 4)), Src(2), 0, 1, 2);
    assert Pair(3, 4) + Pair(0, 2) + Triple(0, 1, 2) - Triple(0, 1, 2) == Pair(3, 4);
  }

  lemma Back3()
    ensures Visited(Five(Pair(3, 4), Pair(0, 2), Pair(3, 4), Triple(0, 3, 4), Triple(1, 2, 4)), Src(3), Never())
            == Five(Pair(3, 4), Pair(0, 2), Pair(3, 4), Pair(1, 2), Triple(1, 2, 4))
  {
    VisitTriple(Five(Pair(3, 4), Pair(0, 2), Pair(3, 4), Triple(0, 3, 4), Triple(1, 2, 4)), Src(3), 0, 3, 4);
    assert Pair(3, 4) + Triple(0, 3, 4) + Triple(1, 2, 4) - Triple(0, 3, 4) == Pair(1, 2);
  }

  lemma Back4()
    ensures Visited(Five(Pair(3, 4), Pair(0, 2), Pair(3, 4), Pair(1, 2), Triple(1, 2, 4)), Src(4), Never())
            == Five(Pair(3, 4), Pair(0, 2), Pair(3, 4), Pair(1, 2), Pair(0, 3))
  {
    VisitTriple(Five(Pair(3, 4), Pair(0, 2), Pair(3, 4), Pair(1, 2), Triple(1, 2, 4)), Src(4), 1, 2, 4);
    assert Pair(0, 2) + Pair(3, 4) + Triple(1, 2, 4) - Triple(1, 2, 4) == Pair(0, 3);
  }

  lemma SweepBack(phis: seq<Value>)
    requires InOrder(phis)
    ensures VisitedAll(After(), phis, Never()) == Before()
  {
    FiveVisits(After(), phis, Never());
    Back0();
    Back1();
    Back2();
    Back3();
    Back4();
  }

  /** The phis in the sets alone. */
  function PhiPart(sets: AliasSets): AliasSets {
    map p | p in sets :: PhisIn(sets, p)
  }

  /** Without pruning, the phis in the sets change as if there were nothing else in them. */
  lemma PhiPartVisited(sets: AliasSets, phi: Value)
    requires phi in sets
    ensures PhiPart(Visited(sets, phi, Never())) == Visited(PhiPart(sets), phi, Never())
  {
    forall v ensures v in Behind(sets, phi, Never()) * sets.Keys <==> v in Behind(PhiPart(sets), phi, Never()) {
      PhiPartBehind(sets, phi, v);
    }
    forall p | p in sets
      ensures PhiPart(Visited(sets, phi, Never()))[p] == Visited(PhiPart(sets), phi, Never())[p]
    {
    }
  }

  lemma PhiPartBehind(sets: AliasSets, phi: Value, v: Value)
    requires phi in sets
    ensures v in Behind(sets, phi, Never()) && v in sets <==> v in Behind(PhiPart(sets), phi, Never())
  {
    var part := PhiPart(sets);
    if v in Behind(sets, phi, Never()) && v in sets {
      var q :| q in PhisIn(sets, phi) && v in sets[q];
      assert q in PhisIn(part, phi) && v in part[q] && !Never()(phi, v);
    }
    if v in Behind(part, phi, Never()) {
      var q :| q in PhisIn(part, phi) && v in part[q];
      assert q in PhisIn(sets, phi) && v in sets[q] && !Never()(phi, v);
    }
  }

  lemma {:induction false} PhiPartAll(sets: AliasSets, phis: seq<Value>)
    requires forall p :: p in phis ==> p in sets
    ensures PhiPart(VisitedAll(sets, phis, Never())) == VisitedAll(PhiPart(sets), phis, Never())
    decreases |phis|
  {
    if phis != [] {
      PhiPartVisited(sets, phis[0]);
      PhiPartAll(Visited(sets, phis[0], Never()), phis[1..]);
    }
  }

  type Sweep = AliasSets -> AliasSets

  /** One round of the loop, the phis visited in this order. */
  function SweepOver(phis: seq<Value>): Sweep {
    (sets: AliasSets) => if forall p :: p in phis ==> p in sets then VisitedAll(sets, phis, Never()) else sets
  }

  function Sweeps(sweep: Sweep, sets: AliasSets, n: nat): AliasSets
    decreases n
  {
    if n == 0 then sets else sweep(Sweeps(sweep, sets, n - 1))
  }

  /** The phis in the sets are swept as if there were nothing else in them. */
  ghost predicate PhisApart(sweep: Sweep, sets: AliasSets) {
    PhiPart(sweep(sets)) == sweep(PhiPart(sets))
  }

  lemma PhiPartSwept(phis: seq<Value>, sets: AliasSets)
    ensures PhisApart(SweepOver(phis), sets)
  {
    if forall p :: p in phis ==> p in sets { PhiPartAll(sets, phis); }
  }

  /** When one sweep turns the phis `a` into `b`, and one turns them back, they alternate for ever. */
  lemma {:induction false} PhisAlternate(sweep: Sweep, sets: AliasSets, n: nat, a: AliasSets, b: AliasSets)
    requires forall x :: PhisApart(sweep, x)
    requires PhiPart(sets) == a && sweep(a) == b && sweep(b) == a
    ensures PhiPart(Sweeps(sweep, sets, n)) == if n % 2 == 0 then a else b
  {
    if n > 0 {
      PhisAlternate(sweep, sets, n - 1, a, b);
      assert PhisApart(sweep, Sweeps(sweep, sets, n - 1));
    }
  }

  lemma BackAndForth(phis: seq<Value>)
    requires InOrder(phis)
    ensures SweepOver(phis)(Before()) == After() && SweepOver(phis)(After()) == Before()
  {
    SweepIs(phis, Before());
    SweepIs(phis, After());
    SweepOut(phis);
    SweepBack(phis);
  }

  lemma SweepIs(phis: seq<Value>, sets: AliasSets)
    requires forall p :: p in phis ==> p in sets
    ensures SweepOver(phis)(sets) == VisitedAll(sets, phis, Never())
  {
  }

  /**
    The loop does not end on every graph.  Whatever roots there are beside them, these phis come back after every second
    sweep, and no sweep finds the sets without phis.
   */
  lemma LoopNeedNotEnd(sets: AliasSets, phis: seq<Value>, n: nat)
    requires InOrder(phis) && PhiPart(sets) == Before()
    ensures !NoPhis(Sweeps(SweepOver(phis), sets, n)) && PhiPart(Sweeps(SweepOver(phis), sets, n + n)) == PhiPart(sets)
  {
    BackAndForth(phis);
    forall x ensures PhisApart(SweepOver(phis), x) { PhiPartSwept(phis, x); }
    NeverWithoutPhis(SweepOver(phis), sets, n);
  }

  lemma NeverWithoutPhis(sweep: Sweep, sets: AliasSets, n: nat)
    requires forall x :: PhisApart(sweep, x)
    requires PhiPart(sets) == Before() && sweep(Before()) == After() && sweep(After()) == Before()
    ensures !NoPhis(Sweeps(sweep, sets, n)) && PhiPart(Sweeps(sweep, sets, n + n)) == PhiPart(sets)
  {
    var a, b := PhiPart(sets), After();
    PhisAlternate(sweep, sets, n, a, b);
    PhisAlternate(sweep, sets, n + n, a, b);
    PhisLeft(Sweeps(sweep, sets, n));
  }

  lemma PhisLeft(sets: AliasSets)
    requires PhiPart(sets) == Before() || PhiPart(sets) == After()
    ensures !NoPhis(sets)
  {
    assert Src(3) in Before()[Src(0)] && Src(1) in After()[Src(0)];
    assert Src(0) in PhiPart(sets) && PhisIn(sets, Src(0)) == PhiPart(sets)[Src(0)];
  }

  /** The phis of one block with two latches, say, each taking its first value from outside the loop. */
  lemma FiveRealPhis(phis: seq<Value>, n: nat)
    requires InOrder(phis)
    ensures var sets := Five({Src(5)} + Pair(3, 4), {Src(6)} + Pair(0, 2), {Src(7)} + Pair(3, 4), {Src(8)} + Pair(1, 2),
                             {Src(9)} + Pair(0, 3));
            !NoPhis(Sweeps(SweepOver(phis), sets, n))
  {
    var sets := Five({Src(5)} + Pair(3, 4), {Src(6)} + Pair(0, 2), {Src(7)} + Pair(3, 4), {Src(8)} + Pair(1, 2),
                     {Src(9)} + Pair(0, 3));
    forall p | p in sets ensures PhisIn(sets, p) == Before()[p] { }
    assert PhiPart(sets) == Before();
    LoopNeedNotEnd(sets, phis, n);
  }

  lemma FiveVisits(sets: AliasSets, phis: seq<Value>, noAlias: (Value, Value) -> bool)
    requires InOrder(phis) && forall p :: p in phis ==> p in sets
    ensures var x1 := Visited(sets, Src(0), noAlias);
            var x2 := Visited(x1, Src(1), noAlias);
            var x3 := Visited(x2, Src(2), noAlias);
            var x4 := Visited(x3, Src(3), noAlias);
            VisitedAll(sets, phis, noAlias) == Visited(x4, Src(4), noAlias)
  {
    var x1 := Visited(sets, Src(0), noAlias);
    var x2 := Visited(x1, Src(1), noAlias);
    var x3 := Visited(x2, Src(2), noAlias);
    var x4 := Visited(x3, Src(3), noAlias);
    assert VisitedAll(sets, phis, noAlias) == VisitedAll(x1, phis[1..], noAlias);
    assert phis[1..][1..] == phis[2..] && VisitedAll(x1, phis[1..], noAlias) == VisitedAll(x2, phis[2..], noAlias);
    assert phis[2..][1..] == phis[3..] && VisitedAll(x2, phis[2..], noAlias) == VisitedAll(x3, phis[3..], noAlias);
    assert phis[3..][1..] == phis[4..] && VisitedAll(x3, phis[3..], noAlias) == VisitedAll(x4, phis[4..], noAlias);
    assert phis[4..][1..] == [];
  }
}
