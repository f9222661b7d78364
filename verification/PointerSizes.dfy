/**
  The two worklists of `pointerAnalysis`: pointers derived from others inherit their sizes, and
  each pointer phi gets a phi for its size and one for its count.
 */
module PointerSizes {
  import opened IR
  import opened Pointers
  import opened PhiAlias
  import opened Typing

  // ----- pointers derived from one other -----

  /** Following the pointer operands ends in a pointer whose sizes are known. */
  ghost predicate Rooted(base: map<Value, Value>, known: set<Value>, rank: Rank) {
    forall v :: v in base ==> base[v] in known || (base[v] in base && rank(base[v]) < rank(v))
  }

  /** The known pointer at the end of a chain. */
  ghost function Root(base: map<Value, Value>, known: set<Value>, rank: Rank, v: Value): (r: Value)
    requires Rooted(base, known, rank) && (v in known || v in base)
    ensures r in known
    decreases rank(v)
  {
    if v in known then v
    else if base[v] in known then base[v]
    else Root(base, known, rank, base[v])
  }

  predicate Inherits(info: PointerInfo, from: PointerInfo, base: Value) {
    info.typeSizeInBits == from.typeSizeInBits && info.numElements == from.numElements && info.aliasSet == [base]
  }

  type Infos = map<Value, PointerInfo>

  /** Outside `unknown` everything has been found, and each pointer found has the sizes of its root. */
  ghost predicate Found(known: Infos, base: map<Value, Value>, rank: Rank, unknown: set<Value>, info: Infos)
    requires Rooted(base, known.Keys, rank) && known.Keys !! base.Keys
  {
    && unknown <= base.Keys && known.Keys + (base.Keys - unknown) <= info.Keys <= known.Keys + base.Keys
    && (forall v :: v in known ==> info[v] == known[v])
    && forall v :: v in info && v in base ==> Inherits(info[v], known[Root(base, known.Keys, rank, v)], base[v])
  }

  lemma {:induction false} LowestRank(s: set<Value>, rank: Rank) returns (m: Value)
    requires s != {}
    ensures m in s && forall q :: q in s ==> rank(m) <= rank(q)
  {
    m :| m in s;
    if s != {m} {
      var n := LowestRank(s - {m}, rank);
      assert forall q :: q in s ==> q == m || q in s - {m};
      if rank(n) < rank(m) { m := n; }
    }
  }

  /** Some unknown pointer is derived from a known one. */
  lemma SomeReady(known: Infos, base: map<Value, Value>, rank: Rank, unknown: set<Value>, info: Infos)
    requires Rooted(base, known.Keys, rank) && known.Keys !! base.Keys && Found(known, base, rank, unknown, info)
    requires unknown != {}
    ensures exists v :: v in unknown && base[v] in info
  {
    var m := LowestRank(unknown, rank);
    assert base[m] !in unknown;
  }

  lemma FoundOne(known: Infos, base: map<Value, Value>, rank: Rank, unknown: set<Value>, info: Infos, v: Value)
    requires Rooted(base, known.Keys, rank) && known.Keys !! base.Keys && Found(known, base, rank, unknown, info)
    requires v in unknown && base[v] in info
    ensures var from := info[base[v]];
            Found(known, base, rank, unknown, info[v := PointerInfo(from.typeSizeInBits, from.numElements, [base[v]])])
  {
    if base[v] in base {
      assert Root(base, known.Keys, rank, v) == Root(base, known.Keys, rank, base[v]);
    }
  }

  /** One pass over the unknown pointers: those derived from a known one become known. */
  method Pass(ghost known: Infos, base: map<Value, Value>, ghost rank: Rank, unknown: set<Value>, info0: Infos)
    returns (info: Infos, pointersToRemove: set<Value>)
    requires Rooted(base, known.Keys, rank) && known.Keys !! base.Keys && Found(known, base, rank, unknown, info0)
    ensures pointersToRemove <= unknown && Found(known, base, rank, unknown - pointersToRemove, info)
    ensures unknown != {} ==> pointersToRemove != {}
  {
    info, pointersToRemove := info0, {};
    if unknown != {} { SomeReady(known, base, rank, unknown, info0); }
    var todo := unknown;
    while todo != {}
      invariant todo <= unknown && pointersToRemove <= unknown - todo
      invariant Found(known, base, rank, unknown, info) && info0.Keys + pointersToRemove <= info.Keys
      invariant forall v :: v in unknown - todo && base[v] in info0 ==> v in pointersToRemove
      decreases todo
    {
      var v :| v in todo;
      if base[v] in info {
        FoundOne(known, base, rank, unknown, info, v);
        info := info[v := PointerInfo(info[base[v]].typeSizeInBits, info[base[v]].numElements, [base[v]])];
        pointersToRemove := pointersToRemove + {v};
      }
      todo := todo - {v};
    }
  }

  /**
    The first worklist ends, and gives each derived pointer the sizes of the known pointer its chain ends in, whatever
    the order of the passes.
   */
  method InheritSizes(known: Infos, base: map<Value, Value>, ghost rank: Rank) returns (info: Infos)
    requires Rooted(base, known.Keys, rank) && known.Keys !! base.Keys
    ensures info.Keys == known.Keys + base.Keys && forall v :: v in known ==> info[v] == known[v]
    ensures forall v :: v in base ==> Inherits(info[v], known[Root(base, known.Keys, rank, v)], base[v])
  {
    info := known;
    var unknown := base.Keys;
    while unknown != {}
      invariant unknown <= base.Keys && Found(known, base, rank, unknown, info)
      decreases unknown
    {
      var pointersToRemove;
      info, pointersToRemove := Pass(known, base, rank, unknown, info);
      SmallerSet(unknown, pointersToRemove);
      unknown := unknown - pointersToRemove;
    }
  }

  lemma SmallerSet(s: set<Value>, t: set<Value>)
    requires t <= s && (s != {} ==> t != {})
    ensures s != {} ==> s - t < s
  {
  }

  /** A derived pointer has the sizes of the pointer it is derived from. */
  lemma InheritsFromBase(known: Infos, base: map<Value, Value>, rank: Rank, info: Infos, v: Value)
    requires Rooted(base, known.Keys, rank) && known.Keys !! base.Keys && Found(known, base, rank, {}, info) && v in base
    ensures base[v] in info && Inherits(info[v], info[base[v]], base[v])
  {
    if base[v] in base {
      assert Root(base, known.Keys, rank, v) == Root(base, known.Keys, rank, base[v]);
    }
  }

  // ----- pointer phis -----

  /** The incoming values of a phi, one for each edge; several edges may come from one block. */
  type Edges = seq<(Value, Label)>

  function Blocks(edges: Edges): set<Label> {
    set e | e in edges :: e.1
  }

  /** Edges from one block bring one value. */
  predicate Consistent(edges: Edges) {
    forall e, g :: e in edges && g in edges && e.1 == g.1 ==> e.0 == g.0
  }

  /** The phi has one operand for each block in front of it: the size, or count, of the pointer the edge brings. */
  ghost predicate TracksSize(info: Infos, edges: Edges, sizes: Incoming) {
    sizes.Keys == Blocks(edges) && forall e :: e in edges ==> e.0 in info && sizes[e.1] == info[e.0].typeSizeInBits
  }

  ghost predicate TracksCount(info: Infos, edges: Edges, counts: Incoming) {
    counts.Keys == Blocks(edges) && forall e :: e in edges ==> e.0 in info && counts[e.1] == info[e.0].numElements
  }

  lemma BlocksMore(edges: Edges, e: (Value, Label))
    ensures Blocks(edges + [e]) == Blocks(edges) + {e.1}
  {
    assert e in edges + [e] && forall g :: g in edges ==> g in edges + [e];
  }

  /** The edge at `k`: a new block, or one that has its operand. */
  lemma OneMoreEdge(info: Infos, edges: Edges, k: nat, sizes: Incoming, counts: Incoming)
    requires k < |edges| && Consistent(edges) && forall e :: e in edges ==> e.0 in info
    requires TracksSize(info, edges[..k], sizes) && TracksCount(info, edges[..k], counts)
    ensures var (v, b) := edges[k];
            && v in info
            && if b in sizes && b in counts then
                 TracksSize(info, edges[..k + 1], sizes) && TracksCount(info, edges[..k + 1], counts)
               else
                 && TracksSize(info, edges[..k + 1], sizes[b := info[v].typeSizeInBits])
                 && TracksCount(info, edges[..k + 1], counts[b := info[v].numElements])
  {
    var before, e := edges[..k], edges[k];
    assert edges[..k + 1] == before + [e] && e in edges && forall g :: g in before ==> g in edges;
    BlocksMore(before, e);
    if e.1 in Blocks(before) {
      var g :| g in before && g.1 == e.1;
    }
  }

  /** One phi whose incoming values are all known. */
  method AddIncomings(info: Infos, edges: Edges) returns (sizes: Incoming, counts: Incoming, allPhisAreKnown: bool)
    requires Consistent(edges) && forall e :: e in edges ==> e.0 in info
    ensures allPhisAreKnown && TracksSize(info, edges, sizes) && TracksCount(info, edges, counts)
  {
    sizes, counts, allPhisAreKnown := map[], map[], true;
    var phiIdx := 0;
    while phiIdx < |edges|
      invariant phiIdx <= |edges| && allPhisAreKnown
      invariant TracksSize(info, edges[..phiIdx], sizes) && TracksCount(info, edges[..phiIdx], counts)
    {
      var v, b := edges[phiIdx].0, edges[phiIdx].1;
      OneMoreEdge(info, edges, phiIdx, sizes, counts);
      if b !in sizes || b !in counts {
        if v in info {
          sizes := sizes[b := info[v].typeSizeInBits];
          counts := counts[b := info[v].numElements];
        } else {
          allPhisAreKnown := false;
        }
      }
      phiIdx := phiIdx + 1;
    }
    assert edges[..phiIdx] == edges;
  }

  /** The second worklist ends when every incoming value is known; each size phi has one operand for each block. */
  method FindPhiSizes(info: Infos, phis: map<Value, Edges>) returns (sizes: map<Value, Incoming>, counts: map<Value, Incoming>)
    requires forall x :: x in phis ==> Consistent(phis[x]) && forall e :: e in phis[x] ==> e.0 in info
    ensures sizes.Keys == phis.Keys && counts.Keys == phis.Keys
    ensures forall x :: x in phis ==> TracksSize(info, phis[x], sizes[x]) && TracksCount(info, phis[x], counts[x])
  {
    sizes, counts := map[], map[];
    var unknown := phis.Keys;
    while unknown != {}
      invariant unknown <= phis.Keys && sizes.Keys == counts.Keys == phis.Keys - unknown
      invariant forall x :: x in sizes ==> TracksSize(info, phis[x], sizes[x]) && TracksCount(info, phis[x], counts[x])
      decreases unknown
    {
      var x :| x in unknown;
      var size, count, allPhisAreKnown := AddIncomings(info, phis[x]);
      sizes, counts := sizes[x := size], counts[x := count];
      if allPhisAreKnown {
        unknown := unknown - {x};
      }
    }
  }

  /** Such phis, put beside a pointer phi, are what the size shadowing asks for. */
  lemma SizePhisTrack(info: Infos, edges: Edges, sizes: Incoming, counts: Incoming, phis: map<Value, Incoming>,
                      size: Value, count: Value, v: Value, m: Label)
    requires TracksSize(info, edges, sizes) && TracksCount(info, edges, counts) && (v, m) in edges
    requires size in phis && phis[size] == sizes && count in phis && phis[count] == counts
    ensures Tracks(phis, m, Use(size), info[v].typeSizeInBits) && Tracks(phis, m, Use(count), info[v].numElements)
  {
    var e :| e in edges && e == (v, m);
    assert e.1 in Blocks(edges);
  }
}
