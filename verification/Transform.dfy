/**
  What the pass makes of a function: the blocks it inserts, and the operands and phis after
  Steps 1 and 2 of `fixDominance`.
 */
module Transform {
  import opened Records
  import opened IR
  import opened Cfg

  // ----- inserting blocks -----

  /** The instructions emitted for one checkpointed block, and the restored values. */
  datatype Emitted = Emitted(saves: seq<Instr>, restores: seq<Instr>, restored: map<Value, Value>)

  /** The checkpointed blocks in the order of their restart labels, and what is emitted for each. */
  datatype Plan = Plan(headers: seq<Label>, emitted: map<Label, Emitted>)

  function CheckpointOf(h: Label): Label {
    if h.Orig? then Checkpoint(h.id) else h
  }

  function RestartOf(h: Label): Label {
    if h.Orig? then Restart(h.id) else h
  }

  /** Control that went to a checkpointed block goes to its checkpoint block. */
  function Redirect(headers: seq<Label>, l: Label): Label {
    if l in headers then CheckpointOf(l) else l
  }

  function RedirectCases(headers: seq<Label>, cases: seq<(nat, Label)>): seq<(nat, Label)> {
    seq(|cases|, i requires 0 <= i < |cases| => (cases[i].0, Redirect(headers, cases[i].1)))
  }

  function RedirectTerm(headers: seq<Label>, t: Term): Term {
    Term(t.args, RedirectCases(headers, t.cases),
         if t.default.None? then None else Some(Redirect(headers, t.default.value)))
  }

  function Jump(l: Label): Term {
    Term([], [], Some(l))
  }

  /** The entry block's code has moved, so phis name the block it moved to. */
  function Renamed(entry: Label, p: Label): Label {
    if p == entry then NoCREntry else p
  }

  function RenameIncoming(entry: Label, inc: Incoming): Incoming {
    if entry in inc then (inc - {entry})[NoCREntry := inc[entry]] else inc
  }

  function RenamePhis(entry: Label, phis: map<Value, Incoming>): map<Value, Incoming> {
    map x | x in phis :: RenameIncoming(entry, phis[x])
  }

  /** The block control enters first: ask for a label, then restart there or run from the beginning. */
  function DispatchBlock(headers: seq<Label>): Block {
    Block(map[],
          [Instr(Some(ResumeLabel), GetLabel, [])],
          Term([Use(ResumeLabel)],
               seq(|headers|, k requires 0 <= k < |headers| => (k, RestartOf(headers[k]))),
               Some(NoCREntry)))
  }

  function EmittedFor(plan: Plan, h: Label): Emitted {
    if h in plan.emitted then plan.emitted[h] else Emitted([], [], map[])
  }

  function InsertedLabels(headers: seq<Label>): set<Label> {
    {NoCREntry} + (set h | h in headers :: CheckpointOf(h)) + (set h | h in headers :: RestartOf(h))
  }

  /** Block `l` after `createCheckpointAndRestartBlocksForNode`, `insertRestartBlock` and the filling of the blocks. */
  function InstrumentedBlock(p: Program, plan: Plan, l: Label): Block
    requires p.entry in p.blocks && (l.Orig? ==> l in p.blocks)
  {
    match l
    case NoCREntry => Block(map[], p.blocks[p.entry].body, RedirectTerm(plan.headers, p.blocks[p.entry].term))
    case Checkpoint(id) => Block(map[], EmittedFor(plan, Orig(id)).saves, Jump(Orig(id)))
    case Restart(id) => Block(map[], EmittedFor(plan, Orig(id)).restores, Jump(Orig(id)))
    case Orig(_) =>
      if l == p.entry then DispatchBlock(plan.headers)
      else
        var b := p.blocks[l];
        Block(RenamePhis(p.entry, b.phis), b.body, RedirectTerm(plan.headers, b.term))
  }

  /** The labels of the result: only blocks of the function have original labels. */
  function AllLabels(p: Program, plan: Plan): set<Label> {
    (set l | l in p.blocks && l.Orig?) + (set l | l in InsertedLabels(plan.headers) && !l.Orig?)
  }

  function Instrumented(p: Program, plan: Plan): Program
    requires p.entry in p.blocks
  {
    Program(map l | l in AllLabels(p, plan) :: InstrumentedBlock(p, plan, l), p.entry, p.args)
  }

  // ----- live values and mappings of the nodes -----

  /** Live values of every node, and for each live or defined value the name it has at the end of the node. */
  datatype Nodes = Nodes(live: map<Label, set<CFGUse>>, mapping: map<Label, map<Value, Value>>)

  function Identity(vs: set<Value>): map<Value, Value> {
    map v | v in vs :: v
  }

  function Values(us: set<CFGUse>): set<Value> {
    set u | u in us :: u.value
  }

  function LiveAt(live: map<Label, set<CFGUse>>, l: Label): set<CFGUse> {
    if l in live then live[l] else {}
  }

  /** `addCheckpointNode` copies the live set, the other inserted nodes have none. */
  function NodeLive(live: map<Label, set<CFGUse>>, l: Label): set<CFGUse> {
    match l
    case Orig(_) => LiveAt(live, l)
    case Checkpoint(id) => LiveAt(live, Orig(id))
    case Restart(_) => {}
    case NoCREntry => {}
  }

  /** `setUpLiveSetsAndMappings`, `addCheckpointNode`, `addRestartNode` with the restored values, `addNoCREntryNode`. */
  function NodeMapping(p: Program, plan: Plan, live: map<Label, set<CFGUse>>, l: Label): map<Value, Value>
    requires p.entry in p.blocks && (l.Orig? ==> l in p.blocks)
  {
    match l
    case Orig(_) =>
      var b := p.blocks[l];
      Identity(Values(LiveAt(live, l)) + b.phis.Keys + Dsts(b.body) + if l == p.entry then p.args else {})
    case Checkpoint(id) => Identity(Values(LiveAt(live, Orig(id))))
    case Restart(id) => Identity(Values(LiveAt(live, Orig(id)))) + EmittedFor(plan, Orig(id)).restored
    case NoCREntry => Identity(Dsts(p.blocks[p.entry].body))
  }

  function NodesOf(p: Program, plan: Plan, live: map<Label, set<CFGUse>>): Nodes
    requires p.entry in p.blocks
  {
    Nodes(map l | l in AllLabels(p, plan) :: NodeLive(live, l),
          map l | l in AllLabels(p, plan) :: NodeMapping(p, plan, live, l))
  }

  // ----- Steps 1 and 2 of fixDominance -----

  function LiveAny(nodes: Nodes, l: Label): set<Value> {
    AnyValues(LiveAt(nodes.live, l))
  }

  function LivePhis(nodes: Nodes, l: Label): set<Value> {
    PhiOnlyValues(LiveAt(nodes.live, l))
  }

  function PhiOnlyValues(us: set<CFGUse>): set<Value> {
    set u | u in us && u.useType.PHIOnly? :: u.value
  }

  /** `getLiveMapping` once every ordinary live value has its phi. */
  function Mapped(nodes: Nodes, l: Label, v: Value): Value {
    if v in LiveAny(nodes, l) then LivePhi(v, l)
    else if l in nodes.mapping && v in nodes.mapping[l] then nodes.mapping[l][v]
    else v
  }

  predicate HasMapping(nodes: Nodes, l: Label, v: Value) {
    v in LiveAny(nodes, l) || (l in nodes.mapping && v in nodes.mapping[l])
  }

  function Preds(p: Program, l: Label): set<Label> {
    set m | m in p.blocks && l in TermTargets(p.blocks[m].term)
  }

  /** In a block, an ordinary live value is used through its phi. */
  function Sub(any: set<Value>, l: Label, v: Value): Value {
    if v in any then LivePhi(v, l) else v
  }

  function SubOperand(any: set<Value>, l: Label, o: Operand): Operand {
    if o.Use? then Use(Sub(any, l, o.v)) else o
  }

  function SubArgs(any: set<Value>, l: Label, os: seq<Operand>): (r: seq<Operand>)
    ensures |r| == |os|
  {
    seq(|os|, i requires 0 <= i < |os| => SubOperand(any, l, os[i]))
  }

  function SubInstr(any: set<Value>, l: Label, i: Instr): Instr {
    i.(args := SubArgs(any, l, i.args))
  }

  function SubBody(any: set<Value>, l: Label, body: seq<Instr>): (r: seq<Instr>)
    ensures |r| == |body|
    ensures forall i :: 0 <= i < |body| ==> r[i] == SubInstr(any, l, body[i])
  {
    if body == [] then [] else [SubInstr(any, l, body[0])] + SubBody(any, l, body[1..])
  }

  function SubTerm(any: set<Value>, l: Label, t: Term): Term {
    t.(args := SubArgs(any, l, t.args))
  }

  /** An operand of a phi that was there: the name its value has at the end of the predecessor. */
  function FixOperand(nodes: Nodes, l: Label, pred: Label, o: Operand): Operand {
    if o.Use? && o.v in LivePhis(nodes, l) then Use(Mapped(nodes, pred, o.v))
    else SubOperand(LiveAny(nodes, l), l, o)
  }

  function FixIncoming(nodes: Nodes, l: Label, inc: Incoming): Incoming {
    map pred | pred in inc :: FixOperand(nodes, l, pred, inc[pred])
  }

  function PhiNames(any: set<Value>, l: Label): set<Value> {
    set v | v in any :: LivePhi(v, l)
  }

  /** The phis made for the ordinary live values, with one operand for each predecessor. */
  function NewPhis(p: Program, nodes: Nodes, l: Label): map<Value, Incoming> {
    map x | x in PhiNames(LiveAny(nodes, l), l) && x.LivePhi? ::
      map pred | pred in Preds(p, l) :: Use(Mapped(nodes, pred, x.of))
  }

  function FixedBlock(p: Program, nodes: Nodes, l: Label): Block
    requires l in p.blocks
  {
    var b := p.blocks[l];
    Block((map x | x in b.phis :: FixIncoming(nodes, l, b.phis[x])) + NewPhis(p, nodes, l),
          SubBody(LiveAny(nodes, l), l, b.body),
          SubTerm(LiveAny(nodes, l), l, b.term))
  }

  function Fixed(p: Program, nodes: Nodes): Program {
    Program(map l | l in p.blocks :: FixedBlock(p, nodes, l), p.entry, p.args)
  }

  /** The function as the pass leaves it before trivial phis are removed. */
  function Transformed(p: Program, plan: Plan, live: map<Label, set<CFGUse>>): Program
    requires p.entry in p.blocks
  {
    Fixed(Instrumented(p, plan), NodesOf(p, plan, live))
  }
}
