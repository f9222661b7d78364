/**
  Steps 1 and 2 of `fixDominance`, in place: phis for the live values, a list of phi operands
  to update, and the updates.
 */
module FixDominance {
  import opened IR
  import opened Cfg
  import opened Transform

  datatype PHINodeMappingToUpdate = PHINodeMappingToUpdate(block: Label, phi: Value, pred: Label, value: Value)

  // ----- what Step 1 leaves of a block -----

  function SubIncoming(any: set<Value>, l: Label, inc: Incoming): Incoming {
    map m | m in inc :: SubOperand(any, l, inc[m])
  }

  /** The operands of a new phi before Step 2. */
  function Placeholders(preds: set<Label>): Incoming {
    map m | m in preds :: Const(0)
  }

  function HalfPhis(q: Program, l: Label, any: set<Value>): map<Value, Incoming>
    requires l in q.blocks
  {
    (map x | x in q.blocks[l].phis :: SubIncoming(any, l, q.blocks[l].phis[x])) +
    map x | x in PhiNames(any, l) :: Placeholders(Preds(q, l))
  }

  function HalfBlock(q: Program, l: Label, any: set<Value>): Block
    requires l in q.blocks
  {
    Block(HalfPhis(q, l, any), SubBody(any, l, q.blocks[l].body), SubTerm(any, l, q.blocks[l].term))
  }

  /** The updates Step 1 schedules in a block: operands that name a phi-only live value, and all operands of new phis. */
  predicate Due(q: Program, l: Label, any: set<Value>, phiOnly: set<Value>, u: PHINodeMappingToUpdate)
    requires l in q.blocks
  {
    && u.block == l
    && ((OperandIs(q.blocks[l].phis, u.phi, u.pred, Use(u.value)) && u.value in phiOnly)
        || (u.value in any && u.phi == LivePhi(u.value, l) && u.pred in Preds(q, l)))
  }

  predicate OperandIs(phis: map<Value, Incoming>, x: Value, m: Label, o: Operand) {
    x in phis && m in phis[x] && phis[x][m] == o
  }

  // ----- replacing one live value -----

  lemma SubTwice(any: set<Value>, l: Label, v: Value, o: Operand)
    requires v.Src?
    ensures SubOperand({v}, l, SubOperand(any, l, o)) == SubOperand(any + {v}, l, o)
  {
  }

  lemma SubTwiceArgs(any: set<Value>, l: Label, v: Value, os: seq<Operand>)
    requires v.Src?
    ensures SubArgs({v}, l, SubArgs(any, l, os)) == SubArgs(any + {v}, l, os)
  {
    forall i | 0 <= i < |os| ensures SubArgs({v}, l, SubArgs(any, l, os))[i] == SubArgs(any + {v}, l, os)[i] {
      SubTwice(any, l, v, os[i]);
    }
  }

  lemma SubTwiceBody(any: set<Value>, l: Label, v: Value, body: seq<Instr>)
    requires v.Src?
    ensures SubBody({v}, l, SubBody(any, l, body)) == SubBody(any + {v}, l, body)
  {
    forall i | 0 <= i < |body| ensures SubBody({v}, l, SubBody(any, l, body))[i] == SubBody(any + {v}, l, body)[i] {
      SubTwiceArgs(any, l, v, body[i].args);
    }
  }

  lemma SubTwicePhi(any: set<Value>, l: Label, v: Value, inc: Incoming)
    requires v.Src?
    ensures SubIncoming({v}, l, SubIncoming(any, l, inc)) == SubIncoming(any + {v}, l, inc)
  {
    forall m | m in inc ensures SubOperand({v}, l, SubOperand(any, l, inc[m])) == SubOperand(any + {v}, l, inc[m]) {
      SubTwice(any, l, v, inc[m]);
    }
  }

  /** All operands of a list that are `v` become its phi. */
  method SetOperands(os: seq<Operand>, l: Label, v: Value) returns (r: seq<Operand>)
    ensures r == SubArgs({v}, l, os)
  {
    r := [];
    var i := 0;
    while i < |os|
      invariant i <= |os| && |r| == i
      invariant forall k :: 0 <= k < i ==> r[k] == SubOperand({v}, l, os[k])
    {
      r := r + [if os[i] == Use(v) then Use(LivePhi(v, l)) else os[i]];
      i := i + 1;
    }
  }

  method SetInBody(body: seq<Instr>, l: Label, v: Value) returns (r: seq<Instr>)
    ensures r == SubBody({v}, l, body)
  {
    r := [];
    var i := 0;
    while i < |body|
      invariant i <= |body| && |r| == i
      invariant forall k :: 0 <= k < i ==> r[k] == SubInstr({v}, l, body[k])
    {
      var args := SetOperands(body[i].args, l, v);
      r := r + [body[i].(args := args)];
      i := i + 1;
    }
  }

  method SetInPhi(inc: Incoming, l: Label, v: Value) returns (r: Incoming)
    ensures r == SubIncoming({v}, l, inc)
  {
    r := map[];
    var todo := inc.Keys;
    while todo != {}
      invariant todo <= inc.Keys && r.Keys == inc.Keys - todo
      invariant forall m :: m in r ==> r[m] == SubOperand({v}, l, inc[m])
      decreases todo
    {
      var m :| m in todo;
      r := r[m := if inc[m] == Use(v) then Use(LivePhi(v, l)) else inc[m]];
      todo := todo - {m};
    }
  }

  method SetInPhis(phis: map<Value, Incoming>, l: Label, v: Value) returns (r: map<Value, Incoming>)
    ensures r == map x | x in phis :: SubIncoming({v}, l, phis[x])
  {
    r := map[];
    var todo := phis.Keys;
    while todo != {}
      invariant todo <= phis.Keys && r.Keys == phis.Keys - todo
      invariant forall x :: x in r ==> r[x] == SubIncoming({v}, l, phis[x])
      decreases todo
    {
      var x :| x in todo;
      var inc := SetInPhi(phis[x], l, v);
      r := r[x := inc];
      todo := todo - {x};
    }
  }

  /** The new phi among the others. */
  lemma HalfPhisMore(q: Program, l: Label, any: set<Value>, v: Value)
    requires l in q.blocks && v.Src? && v !in any
    requires forall x :: x in q.blocks[l].phis ==> x.Src?
    ensures (map x | x in HalfPhis(q, l, any) :: SubIncoming({v}, l, HalfPhis(q, l, any)[x]))[LivePhi(v, l) := Placeholders(Preds(q, l))]
            == HalfPhis(q, l, any + {v})
  {
    var before, after := HalfPhis(q, l, any), HalfPhis(q, l, any + {v});
    var stepped := (map x | x in before :: SubIncoming({v}, l, before[x]))[LivePhi(v, l) := Placeholders(Preds(q, l))];
    PhiNamesMore(any, l, v);
    assert stepped.Keys == after.Keys;
    forall x | x in after ensures stepped[x] == after[x] {
      HalfPhiMore(q, l, any, v, x);
    }
  }

  lemma PhiNamesMore(any: set<Value>, l: Label, v: Value)
    ensures PhiNames(any + {v}, l) == PhiNames(any, l) + {LivePhi(v, l)}
  {
  }

  lemma NothingInPlaceholders(v: Value, l: Label, preds: set<Label>)
    ensures SubIncoming({v}, l, Placeholders(preds)) == Placeholders(preds)
  {
  }

  lemma HalfPhiMore(q: Program, l: Label, any: set<Value>, v: Value, x: Value)
    requires l in q.blocks && v.Src? && v !in any && x in HalfPhis(q, l, any + {v})
    requires forall x :: x in q.blocks[l].phis ==> x.Src?
    ensures if x == LivePhi(v, l) then HalfPhis(q, l, any + {v})[x] == Placeholders(Preds(q, l))
            else x in HalfPhis(q, l, any) && SubIncoming({v}, l, HalfPhis(q, l, any)[x]) == HalfPhis(q, l, any + {v})[x]
  {
    PhiNamesMore(any, l, v);
    NothingInPlaceholders(v, l, Preds(q, l));
    if x in q.blocks[l].phis { SubTwicePhi(any, l, v, q.blocks[l].phis[x]); }
  }

  // ----- Step 1 -----

  ghost predicate LiveSetOk(live: set<CFGUse>) {
    UseSetOk(live) && forall u :: u in live ==> u.value.Src?
  }

  function OldMapping(nodes: Nodes, l: Label): map<Value, Value> {
    if l in nodes.mapping then nodes.mapping[l] else map[]
  }

  function PhiMapping(any: set<Value>, l: Label): map<Value, Value> {
    map v | v in any :: LivePhi(v, l)
  }

  /** The updates scheduled so far are `before` and those of block `l` for the values dealt with. */
  ghost predicate Scheduled(q: Program, l: Label, any: set<Value>, phiOnly: set<Value>,
                            before: seq<PHINodeMappingToUpdate>, updates: seq<PHINodeMappingToUpdate>)
    requires l in q.blocks
  {
    forall u :: u in updates <==> u in before || Due(q, l, any, phiOnly, u)
  }

  /** The operands of the phis that are the live value `v`. */
  method FindPhiUses(phis: map<Value, Incoming>, l: Label, v: Value) returns (updates: seq<PHINodeMappingToUpdate>)
    ensures forall u :: u in updates <==> u.block == l && u.value == v && OperandIs(phis, u.phi, u.pred, Use(v))
  {
    updates := [];
    var todo := phis.Keys;
    while todo != {}
      invariant todo <= phis.Keys
      invariant forall u :: u in updates <==>
                  u.block == l && u.value == v && u.phi !in todo && OperandIs(phis, u.phi, u.pred, Use(v))
      decreases todo
    {
      var x :| x in todo;
      var preds := phis[x].Keys;
      ghost var before := updates;
      while preds != {}
        invariant preds <= phis[x].Keys
        invariant forall u :: u in updates <==>
                    u in before || (u.block == l && u.value == v && u.phi == x && u.pred !in preds && OperandIs(phis, x, u.pred, Use(v)))
        decreases preds
      {
        var m :| m in preds;
        if phis[x][m] == Use(v) {
          updates := updates + [PHINodeMappingToUpdate(l, x, m, v)];
        }
        preds := preds - {m};
      }
      todo := todo - {x};
    }
  }

  /** An operand of a phi that is `v` now, `v` not having been replaced, was `v` from the beginning. */
  lemma StillThere(q: Program, l: Label, any: set<Value>, v: Value, x: Value, m: Label)
    requires l in q.blocks && v.Src? && v !in any && forall y :: y in q.blocks[l].phis ==> y.Src?
    ensures OperandIs(HalfPhis(q, l, any), x, m, Use(v)) <==> OperandIs(q.blocks[l].phis, x, m, Use(v))
  {
  }

  lemma ScheduledPhiOnly(q: Program, l: Label, any: set<Value>, phiOnly: set<Value>, v: Value,
                         before: seq<PHINodeMappingToUpdate>, updates: seq<PHINodeMappingToUpdate>, more: seq<PHINodeMappingToUpdate>)
    requires l in q.blocks && v.Src? && v !in any && forall y :: y in q.blocks[l].phis ==> y.Src?
    requires Scheduled(q, l, any, phiOnly, before, updates)
    requires forall u :: u in more <==> u.block == l && u.value == v && OperandIs(HalfPhis(q, l, any), u.phi, u.pred, Use(v))
    ensures Scheduled(q, l, any, phiOnly + {v}, before, updates + more)
  {
    forall u: PHINodeMappingToUpdate
      ensures u in updates + more <==> u in before || Due(q, l, any, phiOnly + {v}, u)
    {
      StillThere(q, l, any, v, u.phi, u.pred);
      assert u in updates <==> u in before || Due(q, l, any, phiOnly, u);
      assert u in more <==> u.block == l && u.value == v && OperandIs(HalfPhis(q, l, any), u.phi, u.pred, Use(v));
    }
  }

  lemma ScheduledAny(q: Program, l: Label, any: set<Value>, phiOnly: set<Value>, v: Value,
                     before: seq<PHINodeMappingToUpdate>, updates: seq<PHINodeMappingToUpdate>, more: seq<PHINodeMappingToUpdate>)
    requires l in q.blocks && Scheduled(q, l, any, phiOnly, before, updates)
    requires forall u :: u in more <==> u.block == l && u.value == v && u.phi == LivePhi(v, l) && u.pred in Preds(q, l)
    ensures Scheduled(q, l, any + {v}, phiOnly, before, updates + more)
  {
    forall u: PHINodeMappingToUpdate
      ensures u in updates + more <==> u in before || Due(q, l, any + {v}, phiOnly, u)
    {
      assert u in updates <==> u in before || Due(q, l, any, phiOnly, u);
      assert u in more <==> u.block == l && u.value == v && u.phi == LivePhi(v, l) && u.pred in Preds(q, l);
    }
  }

  /** One update for each predecessor of a new phi. */
  method ScheduleIncoming(l: Label, v: Value, preds: set<Label>) returns (phi: Incoming, updates: seq<PHINodeMappingToUpdate>)
    ensures phi == Placeholders(preds)
    ensures forall u :: u in updates <==> u.block == l && u.value == v && u.phi == LivePhi(v, l) && u.pred in preds
  {
    phi, updates := map[], [];
    var todo := preds;
    while todo != {}
      invariant todo <= preds && phi == Placeholders(preds - todo)
      invariant forall u :: u in updates <==> u.block == l && u.value == v && u.phi == LivePhi(v, l) && u.pred in preds - todo
      decreases todo
    {
      var pred :| pred in todo;
      phi := phi[pred := Const(0)];
      updates := updates + [PHINodeMappingToUpdate(l, LivePhi(v, l), pred, v)];
      todo := todo - {pred};
    }
  }

  /** The new phi of one live value, in front of the block whose operands it takes over. */
  method CreatePhi(q: Program, l: Label, ghost any: set<Value>, v: Value, b: Block)
    returns (r: Block, updates: seq<PHINodeMappingToUpdate>)
    requires l in q.blocks && v.Src? && v !in any && forall x :: x in q.blocks[l].phis ==> x.Src?
    requires b == HalfBlock(q, l, any)
    ensures r == HalfBlock(q, l, any + {v})
    ensures forall u :: u in updates <==> u.block == l && u.value == v && u.phi == LivePhi(v, l) && u.pred in Preds(q, l)
  {
    var phis := SetInPhis(b.phis, l, v);
    var body := SetInBody(b.body, l, v);
    var args := SetOperands(b.term.args, l, v);
    SubTwiceBody(any, l, v, q.blocks[l].body);
    SubTwiceArgs(any, l, v, q.blocks[l].term.args);
    HalfPhisMore(q, l, any, v);
    var phi;
    phi, updates := ScheduleIncoming(l, v, Preds(q, l));
    r := Block(phis[LivePhi(v, l) := phi], body, b.term.(args := args));
  }

  /** The values dealt with when a use has been. */
  lemma OneMoreUse(done: set<CFGUse>, u: CFGUse)
    ensures AnyValues(done + {u}) == if u.useType.ANY? then AnyValues(done) + {u.value} else AnyValues(done)
    ensures PhiOnlyValues(done + {u}) == if u.useType.PHIOnly? then PhiOnlyValues(done) + {u.value} else PhiOnlyValues(done)
  {
  }

  /** One entry of the live set. */
  method UpdateFor(q: Program, l: Label, use: CFGUse, ghost any: set<Value>, ghost phiOnly: set<Value>,
                   ghost before: seq<PHINodeMappingToUpdate>, b0: Block, mapping0: map<Value, Value>,
                   updates0: seq<PHINodeMappingToUpdate>)
    returns (b: Block, mapping: map<Value, Value>, updates: seq<PHINodeMappingToUpdate>)
    requires l in q.blocks && use.value.Src? && use.value !in any && forall x :: x in q.blocks[l].phis ==> x.Src?
    requires b0 == HalfBlock(q, l, any) && mapping0 == PhiMapping(any, l) && Scheduled(q, l, any, phiOnly, before, updates0)
    ensures var any' := if use.useType.ANY? then any + {use.value} else any;
            var phiOnly' := if use.useType.PHIOnly? then phiOnly + {use.value} else phiOnly;
            && b == HalfBlock(q, l, any') && mapping == PhiMapping(any', l)
            && Scheduled(q, l, any', phiOnly', before, updates)
  {
    var v := use.value;
    b, mapping := b0, mapping0;
    var more;
    if use.useType.PHIOnly? {
      more := FindPhiUses(b.phis, l, v);
      ScheduledPhiOnly(q, l, any, phiOnly, v, before, updates0, more);
    } else {
      b, more := CreatePhi(q, l, any, v, b);
      ScheduledAny(q, l, any, phiOnly, v, before, updates0, more);
      mapping := mapping[v := LivePhi(v, l)];
    }
    updates := updates0 + more;
  }

  /** The values in `done` come before those still to do: of two uses of a value the phi-only one is first. */
  ghost predicate PhiOnlyFirst(done: set<CFGUse>, todo: set<CFGUse>) {
    forall u, w :: u in done && w in todo && u.value == w.value ==> u.useType.PHIOnly? && w.useType.ANY?
  }

  /** Step 1 in one node; the order of the live set puts the phi-only use of a value before the ordinary one. */
  method CreateNodePhis(q: Program, l: Label, live: set<CFGUse>, updates0: seq<PHINodeMappingToUpdate>)
    returns (b: Block, mapping: map<Value, Value>, updates: seq<PHINodeMappingToUpdate>)
    requires l in q.blocks && LiveSetOk(live) && forall x :: x in q.blocks[l].phis ==> x.Src?
    ensures b == HalfBlock(q, l, AnyValues(live)) && mapping == PhiMapping(AnyValues(live), l)
    ensures Scheduled(q, l, AnyValues(live), PhiOnlyValues(live), updates0, updates)
  {
    HalfNothing(q, l);
    b, mapping, updates := q.blocks[l], map[], updates0;
    var todo := live;
    ghost var done: set<CFGUse> := {};
    while todo != {}
      invariant todo <= live && done == live - todo && PhiOnlyFirst(done, todo)
      invariant b == HalfBlock(q, l, AnyValues(done)) && mapping == PhiMapping(AnyValues(done), l)
      invariant Scheduled(q, l, AnyValues(done), PhiOnlyValues(done), updates0, updates)
      decreases todo
    {
      var use := FirstUse(todo);
      OneMoreUse(done, use);
      FreshValue(live, done, todo, use);
      b, mapping, updates := UpdateFor(q, l, use, AnyValues(done), PhiOnlyValues(done), updates0, b, mapping, updates);
      done := done + {use};
      todo := todo - {use};
    }
    assert done == live;
  }

  lemma FreshValue(live: set<CFGUse>, done: set<CFGUse>, todo: set<CFGUse>, use: CFGUse)
    requires LiveSetOk(live) && done == live - todo && use in todo && todo <= live && PhiOnlyFirst(done, todo)
    requires forall w :: w in todo && w.value == use.value && w.useType.PHIOnly? ==> use.useType.PHIOnly?
    ensures use.value !in AnyValues(done) && use.value.Src? && PhiOnlyFirst(done + {use}, todo - {use})
  {
  }

  /** A use that is not behind another of its value. */
  method FirstUse(todo: set<CFGUse>) returns (use: CFGUse)
    requires todo != {}
    ensures use in todo && forall w :: w in todo && w.value == use.value && w.useType.PHIOnly? ==> use.useType.PHIOnly?
  {
    use :| use in todo;
    if w :| w in todo && w.value == use.value && w.useType.PHIOnly? {
      use := w;
    }
  }

  lemma HalfNothing(q: Program, l: Label)
    requires l in q.blocks
    ensures HalfBlock(q, l, {}) == q.blocks[l]
    ensures AnyValues({}) == {} && PhiOnlyValues({}) == {}
    ensures forall phiOnly, u :: phiOnly == {} ==> !Due(q, l, {}, phiOnly, u)
  {
    var b := q.blocks[l];
    assert PhiNames({}, l) == {};
    forall x | x in b.phis ensures SubIncoming({}, l, b.phis[x]) == b.phis[x] { }
    NothingSubbed(l, b.body);
    assert SubArgs({}, l, b.term.args) == b.term.args;
    assert HalfPhis(q, l, {}) == b.phis;
  }

  lemma NothingSubbed(l: Label, body: seq<Instr>)
    ensures SubBody({}, l, body) == body
  {
    forall i | 0 <= i < |body| ensures SubBody({}, l, body)[i] == body[i] {
      assert SubArgs({}, l, body[i].args) == body[i].args;
    }
  }

  // ----- Step 2 -----

  ghost predicate NodesOk(q: Program, nodes: Nodes) {
    && nodes.live.Keys <= q.blocks.Keys
    && (forall l :: l in q.blocks ==> LiveSetOk(LiveAt(nodes.live, l)))
    && forall l :: l in q.blocks ==> SourceNames(q.blocks[l].phis)
  }

  ghost predicate SourceNames(phis: map<Value, Incoming>) {
    forall x :: x in phis ==> x.Src?
  }

  predicate IsDue(q: Program, nodes: Nodes, u: PHINodeMappingToUpdate) {
    u.block in q.blocks && Due(q, u.block, LiveAny(nodes, u.block), LivePhis(nodes, u.block), u)
  }

  /** The new mapping of a node. */
  function MappingAfter(nodes: Nodes, l: Label): map<Value, Value> {
    OldMapping(nodes, l) + PhiMapping(LiveAny(nodes, l), l)
  }

  /** `getLiveMapping`; a missing entry is not looked up, see the locality results. */
  function GetLiveMapping(maps: map<Label, map<Value, Value>>, l: Label, v: Value): Value {
    if l in maps && v in maps[l] then maps[l][v] else v
  }

  lemma MappingIsMapped(q: Program, nodes: Nodes, maps: map<Label, map<Value, Value>>, l: Label, v: Value)
    requires NodesOk(q, nodes)
    requires HalfMapped(q, nodes, {}, maps)
    ensures GetLiveMapping(maps, l, v) == Mapped(nodes, l, v)
  {
  }

  lemma UpdateIsFix(q: Program, nodes: Nodes, u: PHINodeMappingToUpdate)
    requires NodesOk(q, nodes) && IsDue(q, nodes, u)
    ensures OperandIs(FixedBlock(q, nodes, u.block).phis, u.phi, u.pred, Use(Mapped(nodes, u.pred, u.value)))
  {
    var l := u.block;
    if u.phi == LivePhi(u.value, l) && u.value in LiveAny(nodes, l) {
      assert u.phi.LivePhi?;
      assert u.phi !in q.blocks[l].phis && u.pred in Preds(q, l);
      assert u.phi in PhiNames(LiveAny(nodes, l), l);
      assert u.phi in NewPhis(q, nodes, l) && u.pred in NewPhis(q, nodes, l)[u.phi];
    } else {
      assert u.phi.Src? && u.phi !in NewPhis(q, nodes, l);
    }
  }

  /** An operand no update is due for is final after Step 1. */
  lemma NoUpdateNoChange(q: Program, nodes: Nodes, l: Label, x: Value, m: Label)
    requires NodesOk(q, nodes) && l in q.blocks
    requires x in HalfPhis(q, l, LiveAny(nodes, l)) && m in HalfPhis(q, l, LiveAny(nodes, l))[x]
    ensures || OperandIs(FixedBlock(q, nodes, l).phis, x, m, HalfPhis(q, l, LiveAny(nodes, l))[x][m])
            || exists v :: IsDue(q, nodes, PHINodeMappingToUpdate(l, x, m, v))
  {
    if x in PhiNames(LiveAny(nodes, l), l) {
      assert IsDue(q, nodes, PHINodeMappingToUpdate(l, x, m, x.of));
    } else {
      assert x !in NewPhis(q, nodes, l);
      var o := q.blocks[l].phis[x][m];
      if o.Use? && o.v in LivePhis(nodes, l) {
        assert IsDue(q, nodes, PHINodeMappingToUpdate(l, x, m, o.v));
      }
    }
  }

  /** A block with some of its updates done, between what Step 1 leaves and what Step 2 makes of it. */
  ghost predicate Between(half: Block, fixed: Block, b: Block) {
    && b.body == half.body && b.term == half.term && b.phis.Keys == half.phis.Keys
    && forall x :: x in b.phis ==>
         b.phis[x].Keys == half.phis[x].Keys
         && forall m :: m in b.phis[x] ==> b.phis[x][m] == half.phis[x][m] || OperandIs(fixed.phis, x, m, b.phis[x][m])
  }

  ghost predicate SameShape(half: Block, fixed: Block) {
    && half.body == fixed.body && half.term == fixed.term && half.phis.Keys == fixed.phis.Keys
    && forall x :: x in half.phis ==> half.phis[x].Keys == fixed.phis[x].Keys
  }

  /** An operand that is final. */
  ghost predicate Done(fixed: Block, b: Block, x: Value, m: Label) {
    x in b.phis && m in b.phis[x] && OperandIs(fixed.phis, x, m, b.phis[x][m])
  }

  lemma FixedShape(q: Program, nodes: Nodes, l: Label)
    requires l in q.blocks
    ensures SameShape(HalfBlock(q, l, LiveAny(nodes, l)), FixedBlock(q, nodes, l))
  {
    var half, fixed := HalfBlock(q, l, LiveAny(nodes, l)), FixedBlock(q, nodes, l);
    assert NewPhis(q, nodes, l).Keys == PhiNames(LiveAny(nodes, l), l);
    forall x | x in half.phis ensures half.phis[x].Keys == fixed.phis[x].Keys {
      if x in NewPhis(q, nodes, l) { } else { assert x in q.blocks[l].phis; }
    }
  }

  function SetIncomingValue(b: Block, x: Value, m: Label, o: Operand): Block
    requires x in b.phis
  {
    b.(phis := b.phis[x := b.phis[x][m := o]])
  }

  /** One update in its block. */
  lemma StaysBetween(half: Block, fixed: Block, b: Block, x: Value, m: Label, o: Operand)
    requires SameShape(half, fixed) && Between(half, fixed, b) && OperandIs(fixed.phis, x, m, o)
    ensures x in b.phis && Between(half, fixed, SetIncomingValue(b, x, m, o))
  {
  }

  lemma StaysDone(fixed: Block, b: Block, x: Value, m: Label, o: Operand, y: Value, n: Label)
    requires x in b.phis && OperandIs(fixed.phis, x, m, o)
    requires Done(fixed, b, y, n) || (y == x && n == m)
    ensures Done(fixed, SetIncomingValue(b, x, m, o), y, n)
  {
  }

  /** With every operand final the block is fixed. */
  lemma AllDone(half: Block, fixed: Block, b: Block)
    requires SameShape(half, fixed) && Between(half, fixed, b)
    requires forall x, m :: x in b.phis && m in b.phis[x] ==> Done(fixed, b, x, m)
    ensures b == fixed
  {
    forall x | x in b.phis ensures b.phis[x] == fixed.phis[x] {
      forall m | m in b.phis[x] ensures b.phis[x][m] == fixed.phis[x][m] {
        assert Done(fixed, b, x, m);
      }
    }
  }

  ghost predicate AllBetween(halves: map<Label, Block>, fixed: map<Label, Block>, blocks: map<Label, Block>) {
    blocks.Keys == halves.Keys == fixed.Keys && forall l :: l in blocks ==> Between(halves[l], fixed[l], blocks[l])
  }

  /** The first `k` updates are done. */
  ghost predicate DoneUpTo(fixed: map<Label, Block>, blocks: map<Label, Block>, updates: seq<PHINodeMappingToUpdate>, k: nat) {
    k <= |updates| && forall i :: 0 <= i < k ==>
      updates[i].block in fixed && updates[i].block in blocks
      && Done(fixed[updates[i].block], blocks[updates[i].block], updates[i].phi, updates[i].pred)
  }

  lemma OneUpdate(halves: map<Label, Block>, fixed: map<Label, Block>, blocks: map<Label, Block>,
                  updates: seq<PHINodeMappingToUpdate>, k: nat, o: Operand)
    requires AllBetween(halves, fixed, blocks) && DoneUpTo(fixed, blocks, updates, k) && k < |updates|
    requires forall l :: l in halves ==> SameShape(halves[l], fixed[l])
    requires updates[k].block in blocks && OperandIs(fixed[updates[k].block].phis, updates[k].phi, updates[k].pred, o)
    ensures updates[k].phi in blocks[updates[k].block].phis
    ensures var r := blocks[updates[k].block := SetIncomingValue(blocks[updates[k].block], updates[k].phi, updates[k].pred, o)];
            AllBetween(halves, fixed, r) && DoneUpTo(fixed, r, updates, k + 1)
  {
    var u := updates[k];
    var b := blocks[u.block];
    StaysBetween(halves[u.block], fixed[u.block], b, u.phi, u.pred, o);
    forall i | 0 <= i < k + 1 && updates[i].block == u.block
      ensures Done(fixed[u.block], SetIncomingValue(b, u.phi, u.pred, o), updates[i].phi, updates[i].pred)
    {
      StaysDone(fixed[u.block], b, u.phi, u.pred, o, updates[i].phi, updates[i].pred);
    }
  }

  /** The blocks behind Step 1. */
  function Halves(q: Program, nodes: Nodes): map<Label, Block> {
    map l | l in q.blocks :: HalfBlock(q, l, LiveAny(nodes, l))
  }

  lemma ShapesFixed(q: Program, nodes: Nodes)
    ensures forall l :: l in Halves(q, nodes) ==> SameShape(Halves(q, nodes)[l], Fixed(q, nodes).blocks[l])
  {
    forall l | l in q.blocks ensures SameShape(Halves(q, nodes)[l], Fixed(q, nodes).blocks[l]) { FixedShape(q, nodes, l); }
  }

  /** An operand is final when no update is due for it, or when its update is done. */
  lemma OperandDone(q: Program, nodes: Nodes, l: Label, b: Block, x: Value, m: Label)
    requires NodesOk(q, nodes) && l in q.blocks && x in b.phis && m in b.phis[x]
    requires Between(HalfBlock(q, l, LiveAny(nodes, l)), FixedBlock(q, nodes, l), b)
    requires forall u :: IsDue(q, nodes, u) && u.block == l ==> Done(FixedBlock(q, nodes, l), b, u.phi, u.pred)
    ensures Done(FixedBlock(q, nodes, l), b, x, m)
  {
    NoUpdateNoChange(q, nodes, l, x, m);
    if v :| IsDue(q, nodes, PHINodeMappingToUpdate(l, x, m, v)) {
      assert Done(FixedBlock(q, nodes, l), b, PHINodeMappingToUpdate(l, x, m, v).phi, m);
    }
  }

  lemma BlockUpdated(q: Program, nodes: Nodes, l: Label, b: Block)
    requires NodesOk(q, nodes) && l in q.blocks
    requires Between(HalfBlock(q, l, LiveAny(nodes, l)), FixedBlock(q, nodes, l), b)
    requires forall u :: IsDue(q, nodes, u) && u.block == l ==> Done(FixedBlock(q, nodes, l), b, u.phi, u.pred)
    ensures b == FixedBlock(q, nodes, l)
  {
    FixedShape(q, nodes, l);
    forall x, m | x in b.phis && m in b.phis[x] ensures Done(FixedBlock(q, nodes, l), b, x, m) {
      OperandDone(q, nodes, l, b, x, m);
    }
    AllDone(HalfBlock(q, l, LiveAny(nodes, l)), FixedBlock(q, nodes, l), b);
  }

  /** Marks the blocks a proof looks at. */
  ghost predicate LookAt(l: Label) { true }

  /** The maps of all half-done and of all fixed blocks. */
  ghost predicate Ends(q: Program, nodes: Nodes, halves: map<Label, Block>, fixed: map<Label, Block>) {
    && halves.Keys == q.blocks.Keys && fixed.Keys == q.blocks.Keys
    && forall l {:trigger LookAt(l)} :: LookAt(l) && l in q.blocks ==>
         halves[l] == HalfBlock(q, l, LiveAny(nodes, l)) && fixed[l] == FixedBlock(q, nodes, l)
  }

  lemma TheEnds(q: Program, nodes: Nodes)
    ensures Ends(q, nodes, Halves(q, nodes), Fixed(q, nodes).blocks)
  {
  }

  lemma AllUpdated(q: Program, nodes: Nodes, halves: map<Label, Block>, fixed: map<Label, Block>, blocks: map<Label, Block>,
                   updates: seq<PHINodeMappingToUpdate>)
    requires NodesOk(q, nodes) && Ends(q, nodes, halves, fixed) && AllBetween(halves, fixed, blocks)
    requires DoneUpTo(fixed, blocks, updates, |updates|) && AllScheduled(q, nodes, {}, updates)
    ensures blocks == fixed
  {
    if l :| l in blocks && blocks[l] != fixed[l] {
      BlockIsFixed(q, nodes, halves, fixed, blocks, updates, l);
    }
  }

  lemma BlockIsFixed(q: Program, nodes: Nodes, halves: map<Label, Block>, fixed: map<Label, Block>, blocks: map<Label, Block>,
                     updates: seq<PHINodeMappingToUpdate>, l: Label)
    requires NodesOk(q, nodes) && Ends(q, nodes, halves, fixed) && AllBetween(halves, fixed, blocks) && l in blocks
    requires DoneUpTo(fixed, blocks, updates, |updates|) && AllScheduled(q, nodes, {}, updates)
    ensures blocks[l] == fixed[l]
  {
    assert LookAt(l) && Between(halves[l], fixed[l], blocks[l]);
    BlockSettled(q, nodes, fixed, blocks, updates, l);
    BlockUpdated(q, nodes, l, blocks[l]);
  }

  lemma BlockSettled(q: Program, nodes: Nodes, fixed: map<Label, Block>, blocks: map<Label, Block>,
                     updates: seq<PHINodeMappingToUpdate>, l: Label)
    requires l in fixed && l in blocks && DoneUpTo(fixed, blocks, updates, |updates|) && AllScheduled(q, nodes, {}, updates)
    ensures forall u :: IsDue(q, nodes, u) && u.block == l ==> Done(fixed[l], blocks[l], u.phi, u.pred)
  {
    forall u | IsDue(q, nodes, u) && u.block == l ensures Done(fixed[l], blocks[l], u.phi, u.pred) {
      var i :| 0 <= i < |updates| && updates[i] == u;
    }
  }

  /** What Step 1 has made of the blocks outside `todo`. */
  ghost predicate HalfDone(q: Program, nodes: Nodes, todo: set<Label>, blocks: map<Label, Block>) {
    && blocks.Keys == q.blocks.Keys && todo <= q.blocks.Keys
    && forall l :: l in q.blocks ==> blocks[l] == if l in todo then q.blocks[l] else HalfBlock(q, l, LiveAny(nodes, l))
  }

  ghost predicate HalfMapped(q: Program, nodes: Nodes, todo: set<Label>, maps: map<Label, map<Value, Value>>) {
    && (forall l :: l in q.blocks && l !in todo ==> l in maps && maps[l] == MappingAfter(nodes, l))
    && forall l :: l in todo || l !in q.blocks ==> (l in maps <==> l in nodes.mapping) && (l in maps ==> maps[l] == nodes.mapping[l])
  }

  ghost predicate AllScheduled(q: Program, nodes: Nodes, todo: set<Label>, updates: seq<PHINodeMappingToUpdate>) {
    forall u :: u in updates <==> IsDue(q, nodes, u) && u.block !in todo
  }

  lemma NodeScheduled(q: Program, nodes: Nodes, todo: set<Label>, l: Label, before: seq<PHINodeMappingToUpdate>,
                      updates: seq<PHINodeMappingToUpdate>)
    requires l in todo && todo <= q.blocks.Keys && AllScheduled(q, nodes, todo, before)
    requires Scheduled(q, l, LiveAny(nodes, l), LivePhis(nodes, l), before, updates)
    ensures AllScheduled(q, nodes, todo - {l}, updates)
  {
    forall u: PHINodeMappingToUpdate
      ensures u in updates <==> IsDue(q, nodes, u) && u.block !in todo - {l}
    {
      assert u in updates <==> u in before || Due(q, l, LiveAny(nodes, l), LivePhis(nodes, l), u);
    }
  }

  lemma NodeHalf(q: Program, nodes: Nodes, todo: set<Label>, l: Label, blocks: map<Label, Block>)
    requires l in todo && HalfDone(q, nodes, todo, blocks)
    ensures HalfDone(q, nodes, todo - {l}, blocks[l := HalfBlock(q, l, LiveAny(nodes, l))])
  {
  }

  lemma NodeMapped(q: Program, nodes: Nodes, todo: set<Label>, l: Label, maps: map<Label, map<Value, Value>>)
    requires l in todo && l in q.blocks && HalfMapped(q, nodes, todo, maps)
    ensures HalfMapped(q, nodes, todo - {l}, maps[l := (if l in maps then maps[l] else map[]) + PhiMapping(LiveAny(nodes, l), l)])
  {
  }

  lemma HalfIsBetween(q: Program, nodes: Nodes, blocks: map<Label, Block>)
    requires HalfDone(q, nodes, {}, blocks)
    ensures AllBetween(Halves(q, nodes), Fixed(q, nodes).blocks, blocks)
  {
    assert blocks == Halves(q, nodes);
    ShapesFixed(q, nodes);
    forall l | l in blocks ensures Between(blocks[l], Fixed(q, nodes).blocks[l], blocks[l]) { }
  }

  lemma UpdateReady(q: Program, nodes: Nodes, maps: map<Label, map<Value, Value>>, updates: seq<PHINodeMappingToUpdate>, i: nat)
    requires NodesOk(q, nodes) && HalfMapped(q, nodes, {}, maps) && AllScheduled(q, nodes, {}, updates) && i < |updates|
    ensures var u := updates[i];
            && u.block in Fixed(q, nodes).blocks
            && OperandIs(Fixed(q, nodes).blocks[u.block].phis, u.phi, u.pred, Use(GetLiveMapping(maps, u.pred, u.value)))
  {
    var u := updates[i];
    assert u in updates && IsDue(q, nodes, u);
    MappingIsMapped(q, nodes, maps, u.pred, u.value);
    UpdateIsFix(q, nodes, u);
  }

  /** `CFGFunction` as far as it is rewritten: the blocks, and the live mapping of each node. */
  class CFGFunctionBody {
    const q: Program
    const nodes: Nodes
    var blocks: map<Label, Block>
    var liveValuesMap: map<Label, map<Value, Value>>

    constructor (q: Program, nodes: Nodes)
      ensures this.q == q && this.nodes == nodes && blocks == q.blocks && liveValuesMap == nodes.mapping
    {
      this.q, this.nodes, blocks, liveValuesMap := q, nodes, q.blocks, nodes.mapping;
    }

    method CreatePhis() returns (phisToUpdate: seq<PHINodeMappingToUpdate>)
      requires NodesOk(q, nodes) && blocks == q.blocks && liveValuesMap == nodes.mapping
      modifies this
      ensures HalfDone(q, nodes, {}, blocks) && HalfMapped(q, nodes, {}, liveValuesMap)
      ensures AllScheduled(q, nodes, {}, phisToUpdate)
    {
      phisToUpdate := [];
      var todo := q.blocks.Keys;
      while todo != {}
        invariant HalfDone(q, nodes, todo, blocks) && HalfMapped(q, nodes, todo, liveValuesMap)
        invariant AllScheduled(q, nodes, todo, phisToUpdate)
        decreases todo
      {
        var l :| l in todo;
        var b, mapping, updates := CreateNodePhis(q, l, LiveAt(nodes.live, l), phisToUpdate);
        NodeScheduled(q, nodes, todo, l, phisToUpdate, updates);
        NodeHalf(q, nodes, todo, l, blocks);
        NodeMapped(q, nodes, todo, l, liveValuesMap);
        blocks := blocks[l := b];
        var maps := if l in liveValuesMap then liveValuesMap[l] else map[];
        liveValuesMap := liveValuesMap[l := maps + mapping];
        phisToUpdate := updates;
        todo := todo - {l};
      }
    }

    method UpdatePhis(phisToUpdate: seq<PHINodeMappingToUpdate>)
      requires NodesOk(q, nodes) && HalfDone(q, nodes, {}, blocks) && HalfMapped(q, nodes, {}, liveValuesMap)
      requires AllScheduled(q, nodes, {}, phisToUpdate)
      modifies this`blocks
      ensures blocks == Fixed(q, nodes).blocks
    {
      HalfIsBetween(q, nodes, blocks);
      ShapesFixed(q, nodes);
      ghost var halves, fixed := Halves(q, nodes), Fixed(q, nodes).blocks;
      var i := 0;
      while i < |phisToUpdate|
        invariant AllBetween(halves, fixed, blocks) && DoneUpTo(fixed, blocks, phisToUpdate, i)
      {
        var ptu := phisToUpdate[i];
        var to := GetLiveMapping(liveValuesMap, ptu.pred, ptu.value);
        UpdateReady(q, nodes, liveValuesMap, phisToUpdate, i);
        OneUpdate(halves, fixed, blocks, phisToUpdate, i, Use(to));
        blocks := blocks[ptu.block := SetIncomingValue(blocks[ptu.block], ptu.phi, ptu.pred, Use(to))];
        i := i + 1;
      }
      TheEnds(q, nodes);
      AllUpdated(q, nodes, halves, fixed, blocks, phisToUpdate);
    }

    /** Both steps. */
    method FixOperands()
      requires NodesOk(q, nodes) && blocks == q.blocks && liveValuesMap == nodes.mapping
      modifies this
      ensures Program(blocks, q.entry, q.args) == Fixed(q, nodes)
    {
      var phisToUpdate := CreatePhis();
      UpdatePhis(phisToUpdate);
    }
  }
}
