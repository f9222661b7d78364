/**
  Pointer information: for each pointer the values that hold its element size and element
  count, and the pointers it may alias; and the values a use of a pointer drags along.
 */
module Pointers {
  import opened IR

  /** `PointerAliasInfo`; an allocation has itself as its alias. */
  datatype PointerInfo = PointerInfo(typeSizeInBits: Operand, numElements: Operand, aliasSet: seq<Value>)

  /** `pointerInformation`, with the depth of each pointer in its alias relation. */
  datatype Pointers = Pointers(info: map<Value, PointerInfo>, depth: map<Value, nat>) {
    function Depth(p: Value): nat {
      if p in depth then depth[p] else 0
    }

    /** Apart from allocations naming themselves, following aliases ends. */
    ghost predicate Acyclic() {
      forall p, a :: p in info && a in info[p].aliasSet && a != p && a in info ==> Depth(a) < Depth(p)
    }

    function Measure(p: Value): nat {
      if p in info then 1 + Depth(p) else 0
    }
  }

  /** The values `addPointerUses` adds for a pointer. */
  function PointerUses(ps: Pointers, p: Value): set<Value>
    requires ps.Acyclic()
    decreases ps.Measure(p), 1, 0
  {
    if p !in ps.info then {}
    else
      var info := ps.info[p];
      OperandUses(info.typeSizeInBits) + OperandUses(info.numElements) + AliasUses(ps, p, info.aliasSet)
  }

  function AliasUses(ps: Pointers, p: Value, aliases: seq<Value>): set<Value>
    requires ps.Acyclic() && p in ps.info
    requires forall a :: a in aliases ==> a in ps.info[p].aliasSet
    decreases ps.Measure(p), 0, |aliases|
  {
    if aliases == [] then {}
    else
      {aliases[0]} + (if aliases[0] != p then PointerUses(ps, aliases[0]) else {}) + AliasUses(ps, p, aliases[1..])
  }

  /** A used value with everything its use drags along. */
  function Needs(ps: Pointers, v: Value): set<Value>
    requires ps.Acyclic()
  {
    {v} + PointerUses(ps, v)
  }

  /** `a` is the alias `b` of `p`, or dragged along by it. */
  predicate Via(ps: Pointers, p: Value, b: Value, a: Value)
    requires ps.Acyclic()
  {
    a == b || (b != p && a in PointerUses(ps, b))
  }

  lemma {:induction false} AliasUsesContain(ps: Pointers, p: Value, aliases: seq<Value>, a: Value)
    requires ps.Acyclic() && p in ps.info
    requires forall b :: b in aliases ==> b in ps.info[p].aliasSet
    ensures a in AliasUses(ps, p, aliases) <==> exists b :: b in aliases && Via(ps, p, b, a)
    decreases |aliases|
  {
    if aliases != [] {
      var rest := aliases[1..];
      AliasUsesContain(ps, p, rest, a);
      assert aliases[0] in aliases && forall b :: b in rest ==> b in aliases;
      if b :| b in aliases && Via(ps, p, b, a) {
        if b != aliases[0] { assert b in rest; }
      }
    }
  }

  /** What the uses of a pointer are made of. */
  lemma PointerUsesContain(ps: Pointers, p: Value, a: Value)
    requires ps.Acyclic()
    ensures a in PointerUses(ps, p) <==>
            && p in ps.info
            && (|| a in OperandUses(ps.info[p].typeSizeInBits)
                || a in OperandUses(ps.info[p].numElements)
                || exists b :: b in ps.info[p].aliasSet && Via(ps, p, b, a))
  {
    if p in ps.info {
      AliasUsesContain(ps, p, ps.info[p].aliasSet, a);
    }
  }

  /** From alias to alias, and at the end to an alias, a size or a count. */
  predicate NeedPath(ps: Pointers, path: seq<Value>) {
    && |path| >= 2 && (forall i :: 0 <= i < |path| - 1 ==> path[i] in ps.info)
    && (forall i :: 0 <= i < |path| - 2 ==> path[i + 1] in ps.info[path[i]].aliasSet)
    && var info := ps.info[path[|path| - 2]];
       path[|path| - 1] in OperandUses(info.typeSizeInBits) + OperandUses(info.numElements)
       || path[|path| - 1] in info.aliasSet
  }

  lemma {:induction false} NeedsFrom(ps: Pointers, path: seq<Value>)
    requires ps.Acyclic() && NeedPath(ps, path)
    ensures path[|path| - 1] in PointerUses(ps, path[0])
    decreases |path|
  {
    var p, a := path[0], path[|path| - 1];
    PointerUsesContain(ps, p, a);
    if |path| > 2 {
      var rest := path[1..];
      forall i | 0 <= i < |rest| - 2 ensures rest[i + 1] in ps.info[rest[i]].aliasSet {
        assert path[(i + 1) + 1] in ps.info[path[i + 1]].aliasSet;
      }
      NeedsFrom(ps, rest);
      assert path[0 + 1] in ps.info[path[0]].aliasSet;
      assert rest[0] != p ==> Via(ps, p, rest[0], a);
    } else if a in ps.info[p].aliasSet {
      assert Via(ps, p, a, a);
    }
  }

  lemma {:induction false} NeedsTo(ps: Pointers, p: Value, a: Value) returns (path: seq<Value>)
    requires ps.Acyclic() && a in PointerUses(ps, p)
    ensures NeedPath(ps, path) && path[0] == p && path[|path| - 1] == a
    decreases ps.Measure(p)
  {
    PointerUsesContain(ps, p, a);
    var info := ps.info[p];
    if a in OperandUses(info.typeSizeInBits) + OperandUses(info.numElements) || a in info.aliasSet {
      path := [p, a];
    } else {
      var b :| b in info.aliasSet && Via(ps, p, b, a);
      assert b in ps.info by { PointerUsesContain(ps, b, a); }
      var rest := NeedsTo(ps, b, a);
      path := [p] + rest;
      forall i | 0 <= i < |path| - 2 ensures path[i + 1] in ps.info[path[i]].aliasSet {
        if i > 0 { assert rest[(i - 1) + 1] in ps.info[rest[i - 1]].aliasSet; }
      }
    }
  }

  /** What the use of a pointer drags along: exactly what can be reached from it. */
  lemma PointerUsesReach(ps: Pointers, p: Value, a: Value)
    requires ps.Acyclic()
    ensures a in PointerUses(ps, p) <==> exists path :: NeedPath(ps, path) && path[0] == p && path[|path| - 1] == a
  {
    if a in PointerUses(ps, p) { var path := NeedsTo(ps, p, a); }
    if path :| NeedPath(ps, path) && path[0] == p && path[|path| - 1] == a { NeedsFrom(ps, path); }
  }

  /** Sizes and counts are scalars. */
  ghost predicate ScalarSizes(ps: Pointers) {
    forall p, a :: p in ps.info && a in OperandUses(ps.info[p].typeSizeInBits) + OperandUses(ps.info[p].numElements) ==>
      a !in ps.info
  }

  /** What the uses of a pointer drag along are uses of the pointer. */
  lemma {:induction false} PointerUsesTransitive(ps: Pointers, p: Value, a: Value, b: Value)
    requires ps.Acyclic() && ScalarSizes(ps)
    requires a in PointerUses(ps, p) && b in PointerUses(ps, a)
    ensures b in PointerUses(ps, p)
    decreases ps.Measure(p)
  {
    PointerUsesContain(ps, p, a);
    PointerUsesContain(ps, p, b);
    PointerUsesContain(ps, a, b);
    var info := ps.info[p];
    assert a !in OperandUses(info.typeSizeInBits) && a !in OperandUses(info.numElements);
    var c :| c in info.aliasSet && Via(ps, p, c, a);
    if c != p {
      if a != c {
        PointerUsesContain(ps, c, a);
        PointerUsesTransitive(ps, c, a, b);
      }
      assert Via(ps, p, c, b);
    }
  }
}
