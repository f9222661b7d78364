/**
  The nodes of the control flow graph: their use and def sets, and the loop that solves
  backward liveness over them.
 */
module Cfg {
  import opened Records
  import opened IR

  datatype UseType = PHIOnly | ANY

  /** A use of a value: by an ordinary instruction, or by phis on the edge from one block. */
  datatype CFGUse = CFGUse(value: Value, useType: UseType, sourcePHIBlock: Option<Label>)

  function AnyUse(v: Value): CFGUse {
    CFGUse(v, ANY, None)
  }

  function UseFrom(v: Value, source: Option<Label>): CFGUse {
    CFGUse(v, if source.None? then ANY else PHIOnly, source)
  }

  /** Neither use is below the other: the order looks at the value and the kind, not at the source block. */
  predicate SameKey(a: CFGUse, b: CFGUse) {
    a.value == b.value && a.useType == b.useType
  }

  predicate HasKey(s: set<CFGUse>, u: CFGUse) {
    exists w :: w in s && SameKey(w, u)
  }

  /** `set.insert`: an equal key keeps the element that is there. */
  function Insert(s: set<CFGUse>, u: CFGUse): set<CFGUse> {
    if HasKey(s, u) then s else s + {u}
  }

  /** `set.erase` */
  function Erase(s: set<CFGUse>, u: CFGUse): set<CFGUse> {
    set w | w in s && !SameKey(w, u)
  }

  /** The values used by ordinary instructions, and those used by phis on edges from `source`. */
  function AnyValues(s: set<CFGUse>): set<Value> {
    set u | u in s && u.useType.ANY? :: u.value
  }

  function PhiValues(s: set<CFGUse>, source: Label): set<Value> {
    set u | u in s && u.useType.PHIOnly? && u.sourcePHIBlock == Some(source) :: u.value
  }

  /** ANY uses carry no source block and PHIOnly uses one. */
  predicate Proper(s: set<CFGUse>) {
    forall u :: u in s ==> (u.useType.ANY? <==> u.sourcePHIBlock.None?)
  }

  /** `CFGUtils::CFGAddToSet` */
  method AddToSet(copyTo: set<CFGUse>, op: CFGUse) returns (r: set<CFGUse>, changed: bool)
    ensures r == Insert(copyTo, op) && changed == !HasKey(copyTo, op)
  {
    changed := !HasKey(copyTo, op);
    r := if changed then copyTo + {op} else copyTo;
  }

  /** No two different elements with the same key. */
  ghost predicate Functional(s: set<CFGUse>) {
    forall a, b :: a in s && b in s && SameKey(a, b) ==> a == b
  }

  /** `CFGUtils::CFGCopyAllOperands`, where no key of one set belongs to another element of the other. */
  method CopyAllOperands(copyTo: set<CFGUse>, copyFrom: set<CFGUse>) returns (r: set<CFGUse>, changed: bool)
    requires Functional(copyTo + copyFrom)
    ensures r == copyTo + copyFrom && changed == !(copyFrom <= copyTo)
  {
    r, changed := copyTo, false;
    var todo := copyFrom;
    while todo != {}
      invariant todo <= copyFrom
      invariant r == copyTo + (copyFrom - todo)
      invariant changed == !(copyFrom - todo <= copyTo)
      decreases todo
    {
      var op :| op in todo;
      assert HasKey(r, op) <==> op in r;
      var added;
      r, added := AddToSet(r, op);
      changed := changed || added;
      todo := todo - {op};
    }
  }

  class CFGNode {
    const label_: Label
    var successors: set<CFGNode>
    var use: set<CFGUse>
    var def: set<Value>
    var in_: set<CFGUse>
    var out_: set<CFGUse>

    constructor (block: Label, use: set<CFGUse>, def: set<Value>)
      ensures label_ == block && this.use == use && this.def == def
      ensures successors == {} && in_ == {} && out_ == {}
    {
      label_ := block;
      this.use, this.def := use, def;
      successors, in_, out_ := {}, {}, {};
    }
  }

  // ----- one step of the analysis -----

  /** What reaches the end of block `n` from the uses live into one of its successors. */
  function Propagate(n: Label, into: set<CFGUse>): set<CFGUse> {
    set u | u in into && (u.useType.ANY? || u.sourcePHIBlock == Some(n)) :: AnyUse(u.value)
  }

  /** All ordinary uses. */
  predicate AllAny(s: set<CFGUse>) {
    forall u :: u in s ==> u == AnyUse(u.value)
  }

  /** PHIOnly uses are the block's own. */
  ghost predicate OwnPhis(in_: set<CFGUse>, use: set<CFGUse>) {
    forall u :: u in in_ ==> u == AnyUse(u.value) || u in use
  }

  ghost predicate UseSetOk(use: set<CFGUse>) {
    Proper(use) && Functional(use)
  }

  /** in = use + (out - def) */
  method UpdateIn(node: CFGNode) returns (changed: bool)
    requires UseSetOk(node.use) && OwnPhis(node.in_, node.use) && AllAny(node.out_)
    modifies node`in_
    ensures node.in_ == old(node.in_) + node.use + set u | u in node.out_ && u.value !in node.def
    ensures OwnPhis(node.in_, node.use)
    ensures changed == (node.in_ != old(node.in_))
  {
    ghost var before := node.in_;
    node.in_, changed := CopyAllOperands(node.in_, node.use);
    var todo := node.out_;
    while todo != {}
      invariant todo <= node.out_
      invariant node.in_ == before + node.use + set u | u in node.out_ - todo && u.value !in node.def
      invariant OwnPhis(node.in_, node.use)
      invariant changed == (node.in_ != before)
      decreases todo
    {
      var u :| u in todo;
      if u.value !in node.def {
        assert u == AnyUse(u.value);
        assert HasKey(node.in_, u) <==> u in node.in_;
        var added;
        node.in_, added := AddToSet(node.in_, u);
        changed := changed || added;
      }
      todo := todo - {u};
    }
  }

  /** The part of out that comes from the successor `s`. */
  method UpdateOutFrom(node: CFGNode, s: CFGNode) returns (changed: bool)
    requires Proper(s.use) && OwnPhis(s.in_, s.use) && AllAny(node.out_)
    modifies node`out_
    ensures node.out_ == old(node.out_) + Propagate(node.label_, s.in_)
    ensures AllAny(node.out_)
    ensures changed == (node.out_ != old(node.out_))
  {
    changed := false;
    ghost var before := node.out_;
    var todo := s.in_;
    while todo != {}
      invariant todo <= s.in_
      invariant node.out_ == before + Propagate(node.label_, s.in_ - todo)
      invariant AllAny(node.out_)
      invariant changed == (node.out_ != before)
      decreases todo
    {
      var use :| use in todo;
      if (use.useType.PHIOnly? && use.sourcePHIBlock == Some(node.label_)) || !use.useType.PHIOnly? {
        var clear := AnyUse(use.value);
        assert HasKey(node.out_, clear) <==> clear in node.out_;
        var added;
        node.out_, added := AddToSet(node.out_, clear);
        changed := changed || added;
      }
      todo := todo - {use};
    }
  }

  /** One visit of the analysis to a node. */
  method UpdateNode(node: CFGNode) returns (changed: bool)
    requires UseSetOk(node.use) && OwnPhis(node.in_, node.use) && AllAny(node.out_)
    requires forall s :: s in node.successors ==> Proper(s.use) && OwnPhis(s.in_, s.use)
    modifies node`in_, node`out_
    ensures node.in_ == old(node.in_) + node.use + set u | u in old(node.out_) && u.value !in node.def
    ensures forall u :: u in node.out_ <==>
              u in old(node.out_) || exists s :: s in node.successors && u in Propagate(node.label_, s.in_)
    ensures OwnPhis(node.in_, node.use) && AllAny(node.out_)
    ensures changed == (node.in_ != old(node.in_) || node.out_ != old(node.out_))
  {
    changed := UpdateIn(node);
    ghost var before := node.out_;
    var todo := node.successors;
    while todo != {}
      invariant todo <= node.successors
      invariant forall u :: u in node.out_ <==>
                  u in before || exists s :: s in node.successors - todo && u in Propagate(node.label_, s.in_)
      invariant AllAny(node.out_)
      invariant node.in_ == old(node.in_) + node.use + set u | u in before && u.value !in node.def
      invariant forall s :: s in node.successors ==> Proper(s.use) && OwnPhis(s.in_, s.use)
      invariant changed == (node.in_ != old(node.in_) || node.out_ != before)
      decreases todo
    {
      var s :| s in todo;
      var added := UpdateOutFrom(node, s);
      changed := changed || added;
      todo := todo - {s};
    }
  }
}
