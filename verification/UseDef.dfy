/**
  The use and def sets of a block, as the constructor of `CFGNode` collects them, and the
  flow graph they make of a function.
 */
module UseDef {
  import opened Records
  import opened IR
  import opened Pointers
  import opened Paths
  import opened Cfg

  // ----- what the sets mean -----

  function OperandNeeds(ps: Pointers, o: Operand): set<Value>
    requires ps.Acyclic()
  {
    if o.Use? then Needs(ps, o.v) else {}
  }

  function ArgNeeds(ps: Pointers, os: seq<Operand>): set<Value>
    requires ps.Acyclic()
  {
    if os == [] then {} else OperandNeeds(ps, os[0]) + ArgNeeds(ps, os[1..])
  }

  function DstSet(i: Instr): set<Value> {
    if i.dst.Some? then {i.dst.value} else {}
  }

  /** What a piece of straight-line code needs from outside: used before it is defined there. */
  function BodyNeeds(ps: Pointers, body: seq<Instr>, term: Term): set<Value>
    requires ps.Acyclic()
  {
    if body == [] then ArgNeeds(ps, term.args)
    else ArgNeeds(ps, body[0].args) + (BodyNeeds(ps, body[1..], term) - DstSet(body[0]))
  }

  /** Instruction number `k`, or the branch behind the last one, needs `v`. */
  ghost predicate NeededAt(ps: Pointers, body: seq<Instr>, term: Term, k: nat, v: Value)
    requires ps.Acyclic() && k <= |body|
  {
    exists o :: o in (if k == |body| then term.args else body[k].args) && o.Use? && v in Needs(ps, o.v)
  }

  /** No instruction before number `k` defines what it needs. */
  ghost predicate ExposedAt(ps: Pointers, body: seq<Instr>, term: Term, k: nat, v: Value)
    requires ps.Acyclic()
  {
    k <= |body| && NeededAt(ps, body, term, k, v) && forall j :: 0 <= j < k ==> body[j].dst != Some(v)
  }

  lemma {:induction false} ArgNeedsExactly(ps: Pointers, os: seq<Operand>, v: Value)
    requires ps.Acyclic()
    ensures v in ArgNeeds(ps, os) <==> exists o :: o in os && o.Use? && v in Needs(ps, o.v)
  {
    if os != [] {
      ArgNeedsExactly(ps, os[1..], v);
      assert forall o :: o in os <==> o == os[0] || o in os[1..];
    }
  }

  /** Code needs from outside exactly what an instruction needs that no earlier one defines. */
  lemma {:induction false} BodyNeedsExactly(ps: Pointers, body: seq<Instr>, term: Term, v: Value)
    requires ps.Acyclic()
    ensures v in BodyNeeds(ps, body, term) <==>
            exists k: nat :: ExposedAt(ps, body, term, k, v)
    decreases |body|
  {
    if body == [] {
      ArgNeedsExactly(ps, term.args, v);
      assert ExposedAt(ps, body, term, 0, v) <==> v in ArgNeeds(ps, term.args);
    } else {
      ArgNeedsExactly(ps, body[0].args, v);
      assert ExposedAt(ps, body, term, 0, v) <==> v in ArgNeeds(ps, body[0].args);
      var rest := body[1..];
      BodyNeedsExactly(ps, rest, term, v);
      if k: nat :| ExposedAt(ps, body, term, k, v) {
        if k > 0 { ExposedBehind(ps, body, term, k - 1, v); }
      }
      if k: nat :| ExposedAt(ps, rest, term, k, v) && body[0].dst != Some(v) { ExposedBehind(ps, body, term, k, v); }
    }
  }

  /** One instruction in front. */
  lemma ExposedBehind(ps: Pointers, body: seq<Instr>, term: Term, k: nat, v: Value)
    requires ps.Acyclic() && body != []
    ensures ExposedAt(ps, body, term, k + 1, v) <==> ExposedAt(ps, body[1..], term, k, v) && body[0].dst != Some(v)
  {
    var rest := body[1..];
    if k <= |rest| {
      assert NeededAt(ps, body, term, k + 1, v) <==> NeededAt(ps, rest, term, k, v);
      if ExposedAt(ps, body, term, k + 1, v) {
        assert body[0].dst != Some(v);
        forall j | 0 <= j < k ensures rest[j].dst != Some(v) { assert rest[j] == body[j + 1]; }
      }
      if ExposedAt(ps, rest, term, k, v) && body[0].dst != Some(v) {
        forall j | 0 <= j < k + 1 ensures body[j].dst != Some(v) { if j > 0 { assert body[j] == rest[j - 1]; } }
      }
    }
  }

  /** The upward-exposed uses of a block; `args` are the function arguments for the entry block. */
  function BlockUses(ps: Pointers, b: Block, args: set<Value>): set<Value>
    requires ps.Acyclic()
  {
    BodyNeeds(ps, b.body, b.term) - b.phis.Keys - args
  }

  /** What the phis of a block need on the edge from `pred`. */
  function PhiNeeds(ps: Pointers, phis: map<Value, Incoming>, pred: Label): set<Value>
    requires ps.Acyclic()
  {
    set x, v | x in phis && pred in phis[x] && v in OperandNeeds(ps, phis[x][pred]) :: v
  }

  function BlockDefs(b: Block, args: set<Value>): set<Value> {
    b.phis.Keys + Dsts(b.body) + args
  }

  function ArgsAt(p: Program, n: Label): set<Value> {
    if n == p.entry then p.args else {}
  }

  /** The flow graph of a function, uses of pointers dragging along what restoring them needs. */
  function FlowOf(ps: Pointers, p: Program): Flow
    requires ps.Acyclic()
  {
    Flow(
      p.entry,
      map n | n in p.blocks :: TermTargets(p.blocks[n].term),
      map n | n in p.blocks :: BlockDefs(p.blocks[n], ArgsAt(p, n)),
      map n | n in p.blocks :: BlockUses(ps, p.blocks[n], ArgsAt(p, n)),
      map m, n | m in p.blocks && n in p.blocks :: (m, n) := PhiNeeds(ps, p.blocks[n].phis, m))
  }

  // ----- the flow graph, said of the instructions -----

  /** A block uses what an instruction needs that nothing before it defines. */
  lemma UsesExactly(ps: Pointers, p: Program, n: Label, v: Value)
    requires ps.Acyclic() && n in p.blocks
    ensures v in FlowOf(ps, p).Use(n) <==>
            && v !in p.blocks[n].phis && v !in ArgsAt(p, n)
            && exists k: nat :: ExposedAt(ps, p.blocks[n].body, p.blocks[n].term, k, v)
  {
    BodyNeedsExactly(ps, p.blocks[n].body, p.blocks[n].term, v);
  }

  lemma DefsExactly(ps: Pointers, p: Program, n: Label, v: Value)
    requires ps.Acyclic() && n in p.blocks
    ensures v in FlowOf(ps, p).Def(n) <==>
            v in p.blocks[n].phis || v in ArgsAt(p, n) || exists i :: i in p.blocks[n].body && i.dst == Some(v)
  {
    DstsExactly(p.blocks[n].body, v);
  }

  lemma DstsExactly(body: seq<Instr>, v: Value)
    ensures v in Dsts(body) <==> exists i :: i in body && i.dst == Some(v)
  {
    if i :| i in body && i.dst == Some(v) { assert i.dst.value in Dsts(body); }
  }

  /** An edge uses what the operands of its phis need. */
  lemma EdgesExactly(ps: Pointers, p: Program, m: Label, n: Label, v: Value)
    requires ps.Acyclic() && m in p.blocks && n in p.blocks
    ensures v in FlowOf(ps, p).Edge(m, n) <==> exists x :: PhiTakes(ps, p.blocks[n].phis, x, m, v)
  {
    PhiNeedsExactly(ps, p.blocks[n].phis, m, v);
  }

  ghost predicate PhiTakes(ps: Pointers, phis: map<Value, Incoming>, x: Value, m: Label, v: Value)
    requires ps.Acyclic()
  {
    x in phis && m in phis[x] && phis[x][m].Use? && v in Needs(ps, phis[x][m].v)
  }

  lemma PhiNeedsExactly(ps: Pointers, phis: map<Value, Incoming>, m: Label, v: Value)
    requires ps.Acyclic()
    ensures v in PhiNeeds(ps, phis, m) <==> exists x :: PhiTakes(ps, phis, x, m, v)
  {
    if v in PhiNeeds(ps, phis, m) {
      var x :| x in phis && m in phis[x] && v in OperandNeeds(ps, phis[x][m]);
      assert PhiTakes(ps, phis, x, m, v);
    }
    if x :| PhiTakes(ps, phis, x, m, v) { assert v in OperandNeeds(ps, phis[x][m]); }
  }

  // ----- how they are collected -----

  /** `addPointerUses`, with the insertion of the value itself left to the caller. */
  method AddPointerUses(ps: Pointers, pointer: Value, phiBlock: Option<Label>, use0: set<CFGUse>) returns (use: set<CFGUse>)
    requires ps.Acyclic()
    ensures Gains(use0, use, PointerUses(ps, pointer), phiBlock)
    decreases ps.Measure(pointer), 1, 0
  {
    use := use0;
    if pointer !in ps.info {
      return;
    }
    var info := ps.info[pointer];
    if info.typeSizeInBits.Use? {
      use := Insert(use, UseFrom(info.typeSizeInBits.v, phiBlock));
    }
    if info.numElements.Use? {
      use := Insert(use, UseFrom(info.numElements.v, phiBlock));
    }
    ghost var sizes := OperandUses(info.typeSizeInBits) + OperandUses(info.numElements);
    var use1 := AddAliases(ps, pointer, info.aliasSet, phiBlock, use);
    GainsMore(use0, use, use1, sizes, AliasUses(ps, pointer, info.aliasSet), phiBlock);
    use := use1;
  }

  method AddAliases(ps: Pointers, pointer: Value, aliases: seq<Value>, phiBlock: Option<Label>, use0: set<CFGUse>)
    returns (use: set<CFGUse>)
    requires ps.Acyclic() && pointer in ps.info
    requires forall a :: a in aliases ==> a in ps.info[pointer].aliasSet
    ensures Gains(use0, use, AliasUses(ps, pointer, aliases), phiBlock)
    decreases ps.Measure(pointer), 0, |aliases|
  {
    use := use0;
    if aliases == [] {
      return;
    }
    var alias := aliases[0];
    use := Insert(use, UseFrom(alias, phiBlock));
    ghost var needs := {alias};
    if pointer != alias {
      var use1 := AddPointerUses(ps, alias, phiBlock, use);
      GainsMore(use0, use, use1, {alias}, PointerUses(ps, alias), phiBlock);
      use := use1;
      needs := {alias} + PointerUses(ps, alias);
    }
    var use2 := AddAliases(ps, pointer, aliases[1..], phiBlock, use);
    GainsMore(use0, use, use2, needs, AliasUses(ps, pointer, aliases[1..]), phiBlock);
    use := use2;
  }

  /**
    `use` is `use0` with uses of `values` from `source` inserted.  A key that is there already keeps its element,
    so of two source blocks only the first is recorded.
   */
  ghost predicate Gains(use0: set<CFGUse>, use: set<CFGUse>, values: set<Value>, source: Option<Label>) {
    && use0 <= use
    && (forall u :: u in use && u !in use0 ==> u.value in values && u == UseFrom(u.value, source) && !HasKey(use0, u))
    && (forall v :: v in values ==> HasKey(use, UseFrom(v, source)))
    && (Functional(use0) ==> Functional(use))
  }

  lemma GainsMore(use0: set<CFGUse>, use1: set<CFGUse>, use2: set<CFGUse>, a: set<Value>, b: set<Value>, source: Option<Label>)
    requires Gains(use0, use1, a, source) && Gains(use1, use2, b, source)
    ensures Gains(use0, use2, a + b, source)
  {
    forall v | v in a + b
      ensures HasKey(use2, UseFrom(v, source))
    {
      if v in a {
        var w :| w in use1 && SameKey(w, UseFrom(v, source));
        assert w in use2;
      }
    }
    forall u | u in use2 && u !in use0
      ensures !HasKey(use0, u)
    {
      if w :| w in use0 && SameKey(w, u) { assert w in use1; }
    }
  }

  method AddOperand(ps: Pointers, o: Operand, phiBlock: Option<Label>, use0: set<CFGUse>) returns (use: set<CFGUse>)
    requires ps.Acyclic()
    ensures Gains(use0, use, OperandNeeds(ps, o), phiBlock)
  {
    use := use0;
    if o.Use? {
      use := Insert(use, UseFrom(o.v, phiBlock));
      var use1 := AddPointerUses(ps, o.v, phiBlock, use);
      GainsMore(use0, use, use1, {o.v}, PointerUses(ps, o.v), phiBlock);
      use := use1;
    }
  }

  method AddOperands(ps: Pointers, os: seq<Operand>, use0: set<CFGUse>) returns (use: set<CFGUse>)
    requires ps.Acyclic()
    ensures Gains(use0, use, ArgNeeds(ps, os), None)
    decreases |os|
  {
    use := use0;
    if os != [] {
      use := AddOperand(ps, os[0], None, use);
      var use1 := AddOperands(ps, os[1..], use);
      GainsMore(use0, use, use1, OperandNeeds(ps, os[0]), ArgNeeds(ps, os[1..]), None);
      use := use1;
    }
  }

  lemma GainsAny(use0: set<CFGUse>, use: set<CFGUse>, values: set<Value>)
    requires Gains(use0, use, values, None) && Proper(use0)
    ensures AnyValues(use) == AnyValues(use0) + values && Proper(use)
    ensures AllAny(use0) ==> AllAny(use)
    ensures forall u: CFGUse :: u.useType.PHIOnly? ==> (u in use <==> u in use0)
  {
    forall v | v in values
      ensures v in AnyValues(use)
    {
      var w :| w in use && SameKey(w, UseFrom(v, None));
    }
  }

  lemma EraseAny(use: set<CFGUse>, v: Value)
    requires Proper(use) && Functional(use)
    ensures var r := Erase(use, AnyUse(v));
            && AnyValues(r) == AnyValues(use) - {v} && Proper(r) && Functional(r)
            && (AllAny(use) ==> AllAny(r))
            && forall u: CFGUse :: u.useType.PHIOnly? ==> (u in r <==> u in use)
  {
  }

  /** The phis of `done` are all recorded, each value for one of its source blocks. */
  ghost predicate PhisRecorded(ps: Pointers, done: map<Value, Incoming>, use: set<CFGUse>)
    requires ps.Acyclic()
  {
    && (forall u, p :: u in use && u.useType.PHIOnly? && u.sourcePHIBlock == Some(p) ==> u.value in PhiNeeds(ps, done, p))
    && (forall p, v :: v in PhiNeeds(ps, done, p) ==> HasKey(use, UseFrom(v, Some(p))))
  }

  lemma GainsPhi(ps: Pointers, done: map<Value, Incoming>, more: map<Value, Incoming>, use0: set<CFGUse>, use: set<CFGUse>,
                 o: Operand, pred: Label)
    requires ps.Acyclic() && PhisRecorded(ps, done, use0) && Proper(use0) && Functional(use0)
    requires Gains(use0, use, OperandNeeds(ps, o), Some(pred))
    requires forall p: Label :: PhiNeeds(ps, more, p) == PhiNeeds(ps, done, p) + if p == pred then OperandNeeds(ps, o) else {}
    ensures PhisRecorded(ps, more, use) && Proper(use) && Functional(use)
    ensures AnyValues(use) == AnyValues(use0)
  {
    forall p, v | v in PhiNeeds(ps, more, p)
      ensures HasKey(use, UseFrom(v, Some(p)))
    {
      if v in PhiNeeds(ps, done, p) {
        var w :| w in use0 && SameKey(w, UseFrom(v, Some(p)));
        assert w in use;
      }
    }
  }

  method AddPhi(ps: Pointers, ghost done: map<Value, Incoming>, x: Value, incoming: Incoming, use0: set<CFGUse>)
    returns (use: set<CFGUse>)
    requires ps.Acyclic() && PhisRecorded(ps, done, use0) && UseSetOk(use0)
    requires x !in done
    ensures PhisRecorded(ps, done[x := incoming], use) && UseSetOk(use)
    ensures AnyValues(use) == AnyValues(use0) - {x}
  {
    EraseAny(use0, x);
    use := Erase(use0, AnyUse(x));
    ErasedStillRecorded(ps, done, use0, use);
    ghost var got: Incoming := map[];
    NoIncoming(ps, done, done[x := got], x, use);
    var todo := incoming.Keys;
    while todo != {}
      invariant todo <= incoming.Keys
      invariant got == map b | b in incoming && b !in todo :: incoming[b]
      invariant PhisRecorded(ps, done[x := got], use) && UseSetOk(use)
      invariant AnyValues(use) == AnyValues(use0) - {x}
      decreases todo
    {
      var b :| b in todo;
      var use1 := AddOperand(ps, incoming[b], Some(b), use);
      ghost var more := got[b := incoming[b]];
      OneMoreIncoming(ps, done[x := got], done[x := more], x, b, incoming[b]);
      GainsPhi(ps, done[x := got], done[x := more], use, use1, incoming[b], b);
      use := use1;
      todo := todo - {b};
      got := more;
    }
    assert got == incoming;
  }

  lemma ErasedStillRecorded(ps: Pointers, done: map<Value, Incoming>, use0: set<CFGUse>, use: set<CFGUse>)
    requires ps.Acyclic() && PhisRecorded(ps, done, use0)
    requires forall u: CFGUse :: u.useType.PHIOnly? ==> (u in use <==> u in use0)
    ensures PhisRecorded(ps, done, use)
  {
    forall p: Label, v | v in PhiNeeds(ps, done, p)
      ensures HasKey(use, UseFrom(v, Some(p)))
    {
      var w :| w in use0 && SameKey(w, UseFrom(v, Some(p)));
      assert w in use;
    }
  }

  lemma NoIncoming(ps: Pointers, before: map<Value, Incoming>, after: map<Value, Incoming>, x: Value, use: set<CFGUse>)
    requires ps.Acyclic() && PhisRecorded(ps, before, use)
    requires x !in before && after == before[x := map[]]
    ensures PhisRecorded(ps, after, use)
  {
    forall p: Label
      ensures PhiNeeds(ps, after, p) == PhiNeeds(ps, before, p)
    {
      forall v | v in PhiNeeds(ps, before, p)
        ensures v in PhiNeeds(ps, after, p)
      {
        var y :| y in before && p in before[y] && v in OperandNeeds(ps, before[y][p]);
        assert y in after && after[y] == before[y];
      }
    }
  }

  lemma OneMoreIncoming(ps: Pointers, before: map<Value, Incoming>, after: map<Value, Incoming>, x: Value, b: Label, o: Operand)
    requires ps.Acyclic() && x in before && b !in before[x]
    requires after == before[x := before[x][b := o]]
    ensures forall p: Label :: PhiNeeds(ps, after, p) == PhiNeeds(ps, before, p) + if p == b then OperandNeeds(ps, o) else {}
  {
    forall p: Label
      ensures PhiNeeds(ps, after, p) == PhiNeeds(ps, before, p) + if p == b then OperandNeeds(ps, o) else {}
    {
      forall v ensures v in PhiNeeds(ps, after, p) <==> v in PhiNeeds(ps, before, p) || (p == b && v in OperandNeeds(ps, o)) {
        OneMoreNeed(ps, before, after, x, b, o, p, v);
      }
    }
  }

  lemma OneMoreNeed(ps: Pointers, before: map<Value, Incoming>, after: map<Value, Incoming>, x: Value, b: Label, o: Operand,
                    p: Label, v: Value)
    requires ps.Acyclic() && x in before && b !in before[x]
    requires after == before[x := before[x][b := o]]
    ensures v in PhiNeeds(ps, after, p) <==> v in PhiNeeds(ps, before, p) || (p == b && v in OperandNeeds(ps, o))
  {
    if v in PhiNeeds(ps, before, p) {
      var y :| y in before && p in before[y] && v in OperandNeeds(ps, before[y][p]);
      assert y in after && p in after[y] && after[y][p] == before[y][p];
    }
    if v in PhiNeeds(ps, after, p) {
      var y :| y in after && p in after[y] && v in OperandNeeds(ps, after[y][p]);
      if y != x || p != b {
        assert y in before && p in before[y] && after[y][p] == before[y][p];
      }
    }
    if p == b && v in OperandNeeds(ps, o) {
      assert x in after && p in after[x] && v in OperandNeeds(ps, after[x][p]);
    }
  }

  /** The constructor of `CFGNode`: the block is walked backwards, its phis last. */
  method CollectUseDef(ps: Pointers, b: Block, args: set<Value>) returns (use: set<CFGUse>, def: set<Value>)
    requires ps.Acyclic()
    ensures UseSetOk(use)
    ensures def == BlockDefs(b, args)
    ensures AnyValues(use) == BlockUses(ps, b, args)
    ensures PhisRecorded(ps, b.phis, use)
  {
    use, def := CollectBody(ps, b.body, b.term);
    var phiDefs;
    use, phiDefs := CollectPhis(ps, b.phis, use);
    def := def + phiDefs + args;
    use := EraseArgs(ps, b.phis, args, use);
  }

  method CollectBody(ps: Pointers, body: seq<Instr>, term: Term) returns (use: set<CFGUse>, def: set<Value>)
    requires ps.Acyclic()
    ensures UseSetOk(use) && AllAny(use)
    ensures AnyValues(use) == BodyNeeds(ps, body, term) && def == Dsts(body)
  {
    def := {};
    use := AddOperands(ps, term.args, {});
    GainsAny({}, use, ArgNeeds(ps, term.args));
    var i := |body|;
    while i > 0
      invariant 0 <= i <= |body|
      invariant UseSetOk(use) && AllAny(use) && AnyValues(use) == BodyNeeds(ps, body[i..], term)
      invariant def == Dsts(body[i..])
    {
      i := i - 1;
      var inst := body[i];
      assert body[i..] == [inst] + body[i + 1..];
      DstsCons(inst, body[i + 1..]);
      if inst.dst.Some? {
        def := def + {inst.dst.value};
        EraseAny(use, inst.dst.value);
        use := Erase(use, AnyUse(inst.dst.value));
      }
      var use1 := AddOperands(ps, inst.args, use);
      GainsAny(use, use1, ArgNeeds(ps, inst.args));
      use := use1;
    }
    assert body[0..] == body;
  }

  method CollectPhis(ps: Pointers, phis: map<Value, Incoming>, use0: set<CFGUse>) returns (use: set<CFGUse>, def: set<Value>)
    requires ps.Acyclic() && UseSetOk(use0) && AllAny(use0)
    ensures UseSetOk(use) && PhisRecorded(ps, phis, use)
    ensures AnyValues(use) == AnyValues(use0) - phis.Keys && def == phis.Keys
  {
    use, def := use0, {};
    ghost var done: map<Value, Incoming> := map[];
    var todo := phis.Keys;
    while todo != {}
      invariant todo <= phis.Keys
      invariant done == map x | x in phis && x !in todo :: phis[x]
      invariant UseSetOk(use) && PhisRecorded(ps, done, use)
      invariant def == phis.Keys - todo
      invariant AnyValues(use) == AnyValues(use0) - def
      decreases todo
    {
      var x :| x in todo;
      def := def + {x};
      use := AddPhi(ps, done, x, phis[x], use);
      todo := todo - {x};
      done := done[x := phis[x]];
    }
    assert done == phis;
  }

  method EraseArgs(ps: Pointers, ghost phis: map<Value, Incoming>, args: set<Value>, use0: set<CFGUse>)
    returns (use: set<CFGUse>)
    requires ps.Acyclic() && UseSetOk(use0) && PhisRecorded(ps, phis, use0)
    ensures UseSetOk(use) && PhisRecorded(ps, phis, use)
    ensures AnyValues(use) == AnyValues(use0) - args
  {
    use := use0;
    var todo := args;
    while todo != {}
      invariant todo <= args
      invariant UseSetOk(use) && AnyValues(use) == AnyValues(use0) - (args - todo)
      invariant forall u: CFGUse :: u.useType.PHIOnly? ==> (u in use <==> u in use0)
      decreases todo
    {
      var arg :| arg in todo;
      EraseAny(use, arg);
      use := Erase(use, AnyUse(arg));
      todo := todo - {arg};
    }
    ErasedStillRecorded(ps, phis, use0, use);
  }

  lemma DstsCons(i: Instr, body: seq<Instr>)
    ensures Dsts([i] + body) == DstSet(i) + Dsts(body)
  {
    forall v
      ensures v in Dsts([i] + body) <==> v in DstSet(i) + Dsts(body)
    {
      if v in Dsts(body) {
        var j :| j in body && j.dst.Some? && j.dst.value == v;
        assert j in [i] + body;
      }
      if v in DstSet(i) { assert i in [i] + body; }
    }
  }

  // ----- what the order of the set may lose -----

  /**
    Of a value that the phis of a block need from several blocks one use is recorded.  Each of the others has to be live
    into the block by ordinary uses, or defined where it comes from.
   */
  ghost predicate SharedUsesLive(ps: Pointers, p: Program)
    requires ps.Acyclic()
  {
    var f := FlowOf(ps, p);
    forall n, k, m, v ::
      n in p.blocks && k != m && v in PhiNeeds(ps, p.blocks[n].phis, k) && v in PhiNeeds(ps, p.blocks[n].phis, m) ==>
        v in f.Def(m) || LiveIn(Ordinary(f), v, n)
  }

  /** The uses of the edges as the use sets of the nodes record them. */
  function Recorded(f: Flow, uses: map<Label, set<CFGUse>>): Flow {
    f.(edge := map m, n | m in f.succ && n in uses :: (m, n) := PhiValues(uses[n], m))
  }

  /** A use of an edge that is not recorded is recorded for another block. */
  lemma RecordedElsewhere(ps: Pointers, phis: map<Value, Incoming>, use: set<CFGUse>, m: Label, v: Value) returns (k: Label)
    requires ps.Acyclic() && PhisRecorded(ps, phis, use) && Proper(use)
    requires v in PhiNeeds(ps, phis, m) && v !in PhiValues(use, m)
    ensures k != m && v in PhiNeeds(ps, phis, k)
  {
    var w :| w in use && SameKey(w, UseFrom(v, Some(m)));
    k := w.sourcePHIBlock.value;
  }
}
