/**
  The blocks of all headers filled: `fillCheckpointAndRestartBlocksForNode` for each, and
  what may be relied on of the result.
 */
module Plans {
  import opened Records
  import opened IR
  import opened Pointers
  import opened Cfg
  import opened UseDef
  import opened Transform
  import opened Function
  import opened Closure
  import opened Rewriting
  import opened Locality
  import opened Emission

  /** The code of a checkpoint block and of its restart block, the start and finish calls around the records. */
  function EmittedCode(ps: Pointers, ty: Types, l: Label, labelNumber: nat, order: Order): Emitted {
    Emitted([StartCall(labelNumber, |order|)] + (SavesOf(ps, ty, order) + [Instr(None, SaveFinish, [])]),
            RestoresOf(ps, ty, l, order) + [Instr(None, LoadFinish, [])],
            RestoredNames(l, order))
  }

  function StartCall(labelNumber: nat, records: nat): Instr {
    Instr(None, SaveStart, [Const(labelNumber), Const(records)])
  }

  function RestoredNames(l: Label, order: Order): map<Value, Value> {
    map v | v in order :: Restored(v, l)
  }

  /** A set of values with everything they need. */
  ghost predicate Closed(ps: Pointers, vs: set<Value>)
    requires ps.Acyclic()
  {
    forall v :: v in vs ==> Needs(ps, v) <= vs
  }

  /** Each header has its own label number and its code, for all its live values. */
  ghost predicate CodeFor(ps: Pointers, ty: Types, plan: Plan, orders: map<Label, Order>, k: nat, live: set<Value>)
    requires k < |plan.headers|
  {
    var h := plan.headers[k];
    && h in orders && WellOrdered(ps, orders[h]) && Members(orders[h]) == live
    && h in plan.emitted && plan.emitted[h] == EmittedCode(ps, ty, RestartOf(h), k, orders[h])
  }

  ghost predicate Filled(ps: Pointers, ty: Types, plan: Plan, orders: map<Label, Order>, live: map<Label, set<CFGUse>>) {
    forall k :: 0 <= k < |plan.headers| ==> CodeFor(ps, ty, plan, orders, k, AnyAt(live, plan.headers[k]))
  }

  // ----- filling -----

  /** `code` saves and restores exactly the live values, once each and every alias before its user. */
  ghost predicate Emits(ps: Pointers, ty: Types, l: Label, labelNumber: nat, live: set<CFGUse>, order: Order, code: Emitted)
    requires ps.Acyclic()
  {
    && WellOrdered(ps, order) && Members(order) == Values(live)
    && code == EmittedCode(ps, ty, l, labelNumber, order)
  }

  /** `fillCheckpointAndRestartBlocksForNode` */
  method FillCheckpointAndRestartBlocksForNode(ps: Pointers, ty: Types, l: Label, labelNumber: nat, live: set<CFGUse>)
    returns (code: Emitted)
    requires PointersOk(ps) && Closed(ps, Values(live))
    ensures exists order :: Emits(ps, ty, l, labelNumber, live, order, code)
  {
    var crbh := new CheckpointRestartBlockHelper(ps, ty, l, labelNumber);
    var todo := live;
    while todo != {}
      invariant todo <= live
      invariant crbh.ps == ps && crbh.ty == ty && crbh.restart == l && fresh(crbh)
      invariant crbh.Valid() && crbh.Complete()
      invariant Values(live - todo) <= Members(crbh.order) <= Values(live)
      decreases todo
    {
      var use :| use in todo;
      VisitMembers(ps, crbh.order, use.value);
      assert use.value in Values(live);
      var _ := crbh.CheckpointRestoreLiveValue(Use(use.value));
      assert Values(live - (todo - {use})) <= Values(live - todo) + {use.value};
      todo := todo - {use};
    }
    assert Values(live - todo) == Values(live);
    assert Inside(0);
    ghost var order := crbh.order;
    code := Emitted([StartCall(labelNumber, crbh.nextCheckpointLabel)] + (crbh.saves + [Instr(None, SaveFinish, [])]),
                    crbh.restores + [Instr(None, LoadFinish, [])], crbh.liveMapping);
    NamesAre(l, order, crbh.liveMapping);
    assert Emits(ps, ty, l, labelNumber, live, order, code);
  }

  /** The headers' live values, each set closed and without phi uses. */
  ghost predicate HeadersClosed(ps: Pointers, headers: seq<Label>, live: map<Label, set<CFGUse>>)
    requires ps.Acyclic()
  {
    forall h :: h in headers ==> h in live && Closed(ps, AnyAt(live, h)) && Values(live[h]) == AnyAt(live, h)
  }

  /** The blocks of all headers, the label numbers being their positions. */
  method FillBlocks(ps: Pointers, ty: Types, headers: seq<Label>, live: map<Label, set<CFGUse>>)
    returns (plan: Plan, ghost orders: map<Label, Order>)
    requires PointersOk(ps) && HeadersClosed(ps, headers, live)
    requires forall i, j :: 0 <= i < j < |headers| ==> headers[i] != headers[j]
    ensures plan.headers == headers && Filled(ps, ty, plan, orders, live)
  {
    var emitted: map<Label, Emitted> := map[];
    orders := map[];
    plan := Plan(headers, emitted);
    var nextCheckpointLabel := 0;
    while nextCheckpointLabel < |headers|
      invariant nextCheckpointLabel <= |headers| && plan.headers == headers
      invariant forall k :: 0 <= k < nextCheckpointLabel ==> CodeFor(ps, ty, plan, orders, k, AnyAt(live, headers[k]))
    {
      var h := headers[nextCheckpointLabel];
      assert h in headers;
      var code := FillCheckpointAndRestartBlocksForNode(ps, ty, RestartOf(h), nextCheckpointLabel, live[h]);
      ghost var order :| Emits(ps, ty, RestartOf(h), nextCheckpointLabel, live[h], order, code);
      plan := plan.(emitted := plan.emitted[h := code]);
      orders := orders[h := order];
      nextCheckpointLabel := nextCheckpointLabel + 1;
    }
  }

  /** The live sets of the analysis are fit for filling. */
  lemma LiveHeadersClosed(ps: Pointers, p: Program, headers: seq<Label>, live: map<Label, set<CFGUse>>)
    requires SSA(ps, p) && NeedsDominate(ps, p) && LiveOk(ps, p, live) && OwnUses(ps, p, live)
    requires forall h :: h in headers ==> h in p.blocks && p.blocks[h].phis == map[]
    ensures HeadersClosed(ps, headers, live)
  {
    forall h | h in headers
      ensures h in live && Closed(ps, AnyAt(live, h)) && Values(live[h]) == AnyAt(live, h)
    {
      forall v, a | v in AnyAt(live, h) && a in Needs(ps, v) ensures a in AnyAt(live, h) {
        AnyIsLive(ps, p, live, h, v);
        AnyIsLive(ps, p, live, h, a);
        LiveClosed(ps, p, h, v, a);
      }
      OrdinaryOnly(ps, p.blocks[h].phis, live[h]);
    }
  }

  lemma OrdinaryOnly(ps: Pointers, phis: map<Value, Incoming>, live: set<CFGUse>)
    requires ps.Acyclic() && phis == map[] && PhiUsesNeeded(ps, phis, live)
    ensures Values(live) == AnyValues(live)
  {
    forall v | v in Values(live) ensures v in AnyValues(live) {
      var u :| u in live && u.value == v;
    }
  }

  lemma NamesAre(l: Label, order: Order, names: map<Value, Value>)
    requires names.Keys == Members(order) && NamesRestored(l, names)
    ensures names == RestoredNames(l, order)
  {
  }

  // ----- saves only, of live values only -----

  lemma {:induction false} SavesAreSaves(ps: Pointers, ty: Types, order: Order)
    ensures forall i :: i in SavesOf(ps, ty, order) ==> i.dst.None? && IsSave(i.op)
    decreases |order|
  {
    if order != [] { SavesAreSaves(ps, ty, Before(order)); }
  }

  lemma EmittedSaves(ps: Pointers, ty: Types, l: Label, k: nat, order: Order)
    ensures forall i :: i in EmittedCode(ps, ty, l, k, order).saves ==> i.dst.None? && IsSave(i.op)
  {
    SavesAreSaves(ps, ty, order);
  }

  lemma {:induction false} DirectRecorded(ps: Pointers, order: Order, a: Value)
    requires WellOrdered(ps, order) && a in order
    ensures Direct(ps, a) <= Members(order)
    decreases |order|
  {
    if a != Latest(order) { DirectRecorded(ps, Before(order), a); }
    assert Members(Before(order)) <= Members(order);
  }

  lemma SizeArgUses(ps: Pointers, p: Value)
    ensures ArgUses(SizeArgs(ps, p)) <= Direct(ps, p)
  {
  }

  lemma ArgUsesConcat(a: seq<Operand>, b: seq<Operand>)
    ensures ArgUses(a + b) == ArgUses(a) + ArgUses(b)
  {
    forall v ensures v in ArgUses(a + b) <==> v in ArgUses(a) + ArgUses(b) {
      assert Use(v) in a ==> Use(v) in a + b;
      assert Use(v) in b ==> Use(v) in a + b;
    }
  }

  lemma {:induction false} CandidateUses(ps: Pointers, order: Order, p: Value, aliases: seq<Value>)
    requires WellOrdered(ps, order) && Direct(ps, p) <= Members(order)
    requires forall a :: a in aliases ==> a == p || a in order
    ensures ArgUses(CandidateArgs(ps, order, aliases)) <= Members(order) + {p}
  {
    if aliases != [] {
      var a := aliases[0];
      if a != p { DirectRecorded(ps, order, a); }
      SizeArgUses(ps, a);
      CandidateUses(ps, order, p, aliases[1..]);
      var own := [Const(Index(order, a)), Use(a)];
      ArgUsesConcat(SizeArgs(ps, a), own);
      ArgUsesConcat(SizeArgs(ps, a) + own, CandidateArgs(ps, order, aliases[1..]));
    }
  }

  lemma SaveUses(ps: Pointers, ty: Types, order: Order, v: Value)
    requires WellOrdered(ps, order) && Direct(ps, v) <= Members(order)
    ensures ArgUses(SaveOf(ps, ty, order, v).args) <= Members(order) + {v}
  {
    assert ArgUses([Use(v)]) == {v};
    if v in ps.info {
      SizeArgUses(ps, v);
      ArgUsesConcat(SizeArgs(ps, v), [Use(v)]);
      assert forall a :: a in ps.info[v].aliasSet && a != v ==> a in Direct(ps, v);
      CandidateUses(ps, order, v, ps.info[v].aliasSet);
      ArgUsesConcat(SizeArgs(ps, v) + [Use(v)], CandidateArgs(ps, order, ps.info[v].aliasSet));
    }
  }

  lemma {:induction false} SavesUse(ps: Pointers, ty: Types, order: Order)
    requires WellOrdered(ps, order)
    ensures forall i :: i in SavesOf(ps, ty, order) ==> ArgUses(i.args) <= Members(order)
    decreases |order|
  {
    if order != [] {
      SavesUse(ps, ty, Before(order));
      SaveUses(ps, ty, Before(order), Latest(order));
      assert Members(Before(order)) + {Latest(order)} <= Members(order);
    }
  }

  lemma {:induction false} OutsideWithin(body: seq<Instr>, term: Term, vs: set<Value>)
    requires forall i :: i in body ==> ArgUses(i.args) <= vs
    requires ArgUses(term.args) <= vs
    ensures Outside(body, term) <= vs
  {
    if body != [] {
      assert body[0] in body && forall i :: i in body[1..] ==> i in body;
      OutsideWithin(body[1..], term, vs);
    }
  }

  /** The save code takes live values only. */
  lemma SaveCodeLocal(ps: Pointers, ty: Types, l: Label, k: nat, order: Order, h: Label)
    requires WellOrdered(ps, order)
    ensures Outside(EmittedCode(ps, ty, l, k, order).saves, Jump(h)) <= Members(order)
  {
    SavesUse(ps, ty, order);
    OutsideWithin(EmittedCode(ps, ty, l, k, order).saves, Jump(h), Members(order));
  }

  // ----- restores use restored values only -----

  function RestoredSet(l: Label, vs: set<Value>): set<Value> {
    set v | v in vs :: Restored(v, l)
  }

  lemma {:induction false} OutsideConcat(a: seq<Instr>, b: seq<Instr>, term: Term)
    ensures Outside(a + b, term) <= Outside(a, Term([], [], None)) + (Outside(b, term) - Dsts(a))
  {
    if a == [] {
      assert a + b == b && Dsts(a) == {};
    } else {
      assert (a + b)[1..] == a[1..] + b;
      OutsideConcat(a[1..], b, term);
      assert a == [a[0]] + a[1..];
      DstsCons(a[0], a[1..]);
    }
  }

  lemma DstsConcat(a: seq<Instr>, b: seq<Instr>)
    ensures Dsts(a + b) == Dsts(a) + Dsts(b)
  {
    forall v ensures v in Dsts(a + b) <==> v in Dsts(a) + Dsts(b) {
      if v in Dsts(a) { var i :| i in a && i.dst.Some? && i.dst.value == v; assert i in a + b; }
      if v in Dsts(b) { var i :| i in b && i.dst.Some? && i.dst.value == v; assert i in a + b; }
    }
  }

  lemma RestoreUses(ps: Pointers, ty: Types, l: Label, v: Value)
    ensures Outside(RestoreOf(ps, ty, l, v), Term([], [], None)) <= RestoredSet(l, Direct(ps, v))
    ensures Dsts(RestoreOf(ps, ty, l, v)) == {Restored(v, l)}
  {
    var code := RestoreOf(ps, ty, l, v);
    var end := Term([], [], None);
    assert code[0] in code;
    RestoredSizeUses(ps, l, v);
    assert Outside([], end) == {};
    if |code| == 1 {
      assert code[1..] == [];
    } else {
      assert code == [code[0], code[1]];
      assert code[1..] == [code[1]] && code[1..][1..] == [];
      ArgUsesConcat(RestoredSizes(ps, l, v), [Use(Restored(v, l))]);
      assert Outside(code[1..], end) == ArgUses(code[1].args);
      assert ArgUses([RestoredSizes(ps, l, v)[1]]) <= ArgUses(RestoredSizes(ps, l, v));
    }
  }

  lemma RestoredSizeUses(ps: Pointers, l: Label, p: Value)
    ensures ArgUses(RestoredSizes(ps, l, p)) <= RestoredSet(l, Direct(ps, p))
  {
  }

  lemma {:induction false} RestoresUse(ps: Pointers, ty: Types, l: Label, order: Order)
    requires WellOrdered(ps, order)
    ensures Outside(RestoresOf(ps, ty, l, order), Term([], [], None)) == {}
    ensures Dsts(RestoresOf(ps, ty, l, order)) == RestoredSet(l, Members(order))
    decreases |order|
  {
    if order != [] {
      var before, v := Before(order), Latest(order);
      RestoresUse(ps, ty, l, before);
      RestoreUses(ps, ty, l, v);
      OutsideConcat(RestoresOf(ps, ty, l, before), RestoreOf(ps, ty, l, v), Term([], [], None));
      DstsConcat(RestoresOf(ps, ty, l, before), RestoreOf(ps, ty, l, v));
      assert Members(order) == Members(before) + {v};
    }
  }

  /** The restore code takes nothing from outside, and defines a restored value for every record. */
  lemma RestoreCodeLocal(ps: Pointers, ty: Types, l: Label, k: nat, order: Order, h: Label)
    requires WellOrdered(ps, order)
    ensures Outside(EmittedCode(ps, ty, l, k, order).restores, Jump(h)) == {}
    ensures forall v :: v in order ==> Restored(v, l) in Dsts(EmittedCode(ps, ty, l, k, order).restores)
  {
    var finish := [Instr(None, LoadFinish, [])];
    RestoresUse(ps, ty, l, order);
    OutsideConcat(RestoresOf(ps, ty, l, order), finish, Jump(h));
    DstsConcat(RestoresOf(ps, ty, l, order), finish);
    assert finish[1..] == [] && ArgUses(finish[0].args) == {} && Outside([], Jump(h)) == {};
  }

  // ----- all headers -----

  /** The filled blocks are what the transformation asks of a plan. */
  lemma FilledIsLocal(ps: Pointers, ty: Types, plan: Plan, orders: map<Label, Order>, live: map<Label, set<CFGUse>>)
    requires Filled(ps, ty, plan, orders, live)
    ensures EmittedLocal(plan, live)
    ensures forall h, i :: h in plan.headers && i in EmittedFor(plan, h).saves ==> i.dst.None? && IsSave(i.op)
  {
    forall h | h in plan.headers
      ensures Outside(EmittedFor(plan, h).saves, Jump(h)) <= AnyAt(live, h)
      ensures Outside(EmittedFor(plan, h).restores, Jump(h)) == {}
      ensures forall v :: v in AnyAt(live, h) ==>
                v in EmittedFor(plan, h).restored && EmittedFor(plan, h).restored[v] in Dsts(EmittedFor(plan, h).restores)
      ensures forall i :: i in EmittedFor(plan, h).saves ==> i.dst.None? && IsSave(i.op)
    {
      var k :| 0 <= k < |plan.headers| && plan.headers[k] == h;
      assert CodeFor(ps, ty, plan, orders, k, AnyAt(live, h));
      CodeIsLocal(ps, ty, RestartOf(h), k, orders[h], h);
    }
  }

  lemma CodeIsLocal(ps: Pointers, ty: Types, l: Label, k: nat, order: Order, h: Label)
    requires WellOrdered(ps, order)
    ensures var e := EmittedCode(ps, ty, l, k, order);
            && Outside(e.saves, Jump(h)) <= Members(order) && Outside(e.restores, Jump(h)) == {}
            && (forall v :: v in Members(order) ==> v in e.restored && e.restored[v] in Dsts(e.restores))
            && (forall i :: i in e.saves ==> i.dst.None? && IsSave(i.op))
  {
    EmittedSaves(ps, ty, l, k, order);
    SaveCodeLocal(ps, ty, l, k, order, h);
    RestoreCodeLocal(ps, ty, l, k, order, h);
  }
}
