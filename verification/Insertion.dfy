/**
  The blocks the pass inserts: a checkpoint and a restart block for each header, and the
  switch at the entry.
 */
module Insertion {
  import opened Records
  import opened IR
  import opened Transform
  import opened Function
  import opened Rewriting
  import opened Locality

  // ----- checkpoint and restart blocks -----

  function Hook(h: Label): Block {
    Block(map[], [], Jump(h))
  }

  /** Control to `h` goes to its checkpoint block, from every block. */
  function Redirected(blocks: map<Label, Block>, h: Label): map<Label, Block> {
    map l | l in blocks :: blocks[l].(term := RedirectTerm([h], blocks[l].term))
  }

  function Hooked(blocks: map<Label, Block>, h: Label): map<Label, Block> {
    Redirected(blocks, h)[CheckpointOf(h) := Hook(h)][RestartOf(h) := Hook(h)]
  }

  /** The successors of one terminator. */
  method SetSuccessors(t: Term, h: Label) returns (r: Term)
    ensures r == RedirectTerm([h], t)
  {
    var cases: seq<(nat, Label)> := [];
    var i := 0;
    while i < |t.cases|
      invariant i <= |t.cases| && |cases| == i
      invariant forall k :: 0 <= k < i ==> cases[k] == (t.cases[k].0, Redirect([h], t.cases[k].1))
    {
      cases := cases + [(t.cases[i].0, if t.cases[i].1 == h then CheckpointOf(h) else t.cases[i].1)];
      i := i + 1;
    }
    r := Term(t.args, cases, if t.default == Some(h) then Some(CheckpointOf(h)) else t.default);
    assert cases == RedirectCases([h], t.cases);
  }

  /** `createCheckpointAndRestartBlocksForNode` */
  method CreateCheckpointAndRestartBlocksForNode(blocks: map<Label, Block>, h: Label) returns (r: map<Label, Block>)
    ensures r == Hooked(blocks, h)
  {
    r := map[];
    var todo := blocks.Keys;
    while todo != {}
      invariant todo <= blocks.Keys && r.Keys == blocks.Keys - todo
      invariant forall l :: l in r ==> r[l] == blocks[l].(term := RedirectTerm([h], blocks[l].term))
      decreases todo
    {
      var l :| l in todo;
      var term := SetSuccessors(blocks[l].term, h);
      r := r[l := blocks[l].(term := term)];
      todo := todo - {l};
    }
    assert r == Redirected(blocks, h);
    r := r[CheckpointOf(h) := Hook(h)][RestartOf(h) := Hook(h)];
  }

  function HookLabels(hs: seq<Label>): set<Label> {
    (set h | h in hs :: CheckpointOf(h)) + (set h | h in hs :: RestartOf(h))
  }

  /** The function with its blocks and the hooks of `hs`. */
  function WithHooks(p: Program, hs: seq<Label>): map<Label, Block> {
    map l | l in p.blocks.Keys + HookLabels(hs) ::
      if l in p.blocks then p.blocks[l].(term := RedirectTerm(hs, p.blocks[l].term))
      else if l.Checkpoint? || l.Restart? then Hook(Orig(l.id)) else Hook(l)
  }

  lemma RedirectTwice(hs: seq<Label>, h: Label, l: Label)
    requires h.Orig? && h !in hs && forall k :: k in hs ==> k.Orig?
    ensures Redirect([h], Redirect(hs, l)) == Redirect(hs + [h], l)
  {
  }

  lemma RedirectTermTwice(hs: seq<Label>, h: Label, t: Term)
    requires h.Orig? && h !in hs && forall k :: k in hs ==> k.Orig?
    ensures RedirectTerm([h], RedirectTerm(hs, t)) == RedirectTerm(hs + [h], t)
  {
    forall i | 0 <= i < |t.cases|
      ensures RedirectCases([h], RedirectCases(hs, t.cases))[i] == RedirectCases(hs + [h], t.cases)[i]
    {
      RedirectTwice(hs, h, t.cases[i].1);
    }
    if t.default.Some? { RedirectTwice(hs, h, t.default.value); }
  }

  lemma HookLabelsMore(hs: seq<Label>, h: Label)
    ensures HookLabels(hs + [h]) == HookLabels(hs) + {CheckpointOf(h), RestartOf(h)}
  {
    forall l ensures l in HookLabels(hs + [h]) <==> l in HookLabels(hs) + {CheckpointOf(h), RestartOf(h)} {
      assert h in hs + [h] && forall k :: k in hs ==> k in hs + [h];
    }
  }

  lemma HookKept(hs: seq<Label>, h: Label, l: Label)
    requires h.Orig? && h !in hs && (forall k :: k in hs ==> k.Orig?) && l in HookLabels(hs)
    ensures l.Checkpoint? || l.Restart?
    ensures RedirectTerm([h], Jump(Orig(l.id))) == Jump(Orig(l.id)) && l != CheckpointOf(h) && l != RestartOf(h)
  {
    var k :| k in hs && (l == CheckpointOf(k) || l == RestartOf(k));
    assert RedirectCases([h], []) == [];
  }

  lemma HooksMore(p: Program, hs: seq<Label>, h: Label)
    requires h.Orig? && h !in hs && (forall k :: k in hs ==> k.Orig?) && forall l :: l in p.blocks ==> l.Orig?
    ensures Hooked(WithHooks(p, hs), h) == WithHooks(p, hs + [h])
  {
    var r, after := Hooked(WithHooks(p, hs), h), WithHooks(p, hs + [h]);
    HookLabelsMore(hs, h);
    assert r.Keys == after.Keys;
    forall l | l in after ensures r[l] == after[l] {
      HookMore(p, hs, h, l);
    }
  }

  lemma HookMore(p: Program, hs: seq<Label>, h: Label, l: Label)
    requires h.Orig? && h !in hs && (forall k :: k in hs ==> k.Orig?) && forall l :: l in p.blocks ==> l.Orig?
    requires l in WithHooks(p, hs + [h])
    ensures l in Hooked(WithHooks(p, hs), h) && Hooked(WithHooks(p, hs), h)[l] == WithHooks(p, hs + [h])[l]
  {
    HookLabelsMore(hs, h);
    if l in p.blocks {
      RedirectTermTwice(hs, h, p.blocks[l].term);
    } else if l in HookLabels(hs) {
      HookKept(hs, h, l);
    }
  }

  lemma NoHooks(p: Program)
    ensures WithHooks(p, []) == p.blocks
  {
    forall l | l in p.blocks ensures RedirectTerm([], p.blocks[l].term) == p.blocks[l].term {
      assert RedirectCases([], p.blocks[l].term.cases) == p.blocks[l].term.cases;
    }
  }

  /** All headers, one after the other. */
  method CreateBlocks(p: Program, headers: seq<Label>) returns (blocks: map<Label, Block>)
    requires forall l :: l in p.blocks ==> l.Orig?
    requires forall i, j :: 0 <= i < j < |headers| ==> headers[i] != headers[j]
    requires forall h :: h in headers ==> h.Orig?
    ensures blocks == WithHooks(p, headers)
  {
    NoHooks(p);
    blocks := p.blocks;
    var k := 0;
    while k < |headers|
      invariant k <= |headers| && blocks == WithHooks(p, headers[..k])
    {
      NextHeader(headers, k);
      HooksMore(p, headers[..k], headers[k]);
      blocks := CreateCheckpointAndRestartBlocksForNode(blocks, headers[k]);
      k := k + 1;
    }
    assert headers[..k] == headers;
  }

  lemma NextHeader(headers: seq<Label>, k: nat)
    requires k < |headers| && forall h :: h in headers ==> h.Orig?
    requires forall i, j :: 0 <= i < j < |headers| ==> headers[i] != headers[j]
    ensures headers[k].Orig? && headers[k] !in headers[..k] && forall h :: h in headers[..k] ==> h.Orig?
    ensures headers[..k + 1] == headers[..k] + [headers[k]]
  {
  }

  // ----- the switch at the entry -----

  method RenamePhi(entry: Label, inc: Incoming) returns (r: Incoming)
    ensures r == RenameIncoming(entry, inc)
  {
    r := inc;
    if entry in inc {
      r := (inc - {entry})[NoCREntry := inc[entry]];
    }
  }

  method RenameAllPhis(entry: Label, phis: map<Value, Incoming>) returns (r: map<Value, Incoming>)
    ensures r == RenamePhis(entry, phis)
  {
    r := map[];
    var todo := phis.Keys;
    while todo != {}
      invariant todo <= phis.Keys && r.Keys == phis.Keys - todo
      invariant forall x :: x in r ==> r[x] == RenameIncoming(entry, phis[x])
      decreases todo
    {
      var x :| x in todo;
      var inc := RenamePhi(entry, phis[x]);
      r := r[x := inc];
      todo := todo - {x};
    }
  }

  function RenamedIn(blocks: map<Label, Block>, entry: Label, targets: set<Label>): map<Label, Block> {
    map l | l in blocks :: if l in targets then blocks[l].(phis := RenamePhis(entry, blocks[l].phis)) else blocks[l]
  }

  /** The phis behind the entry block name the block its code moves to. */
  method RenameSuccessors(blocks: map<Label, Block>, entry: Label, targets: set<Label>) returns (r: map<Label, Block>)
    requires targets <= blocks.Keys
    ensures r == RenamedIn(blocks, entry, targets)
  {
    r := blocks;
    var todo := targets;
    while todo != {}
      invariant todo <= targets && r == RenamedIn(blocks, entry, targets - todo)
      decreases todo
    {
      var s :| s in todo;
      var phis := RenameAllPhis(entry, blocks[s].phis);
      r := r[s := blocks[s].(phis := phis)];
      todo := todo - {s};
    }
    assert targets - todo == targets;
  }

  method CreateSwitch(headers: seq<Label>) returns (b: Block)
    ensures b == DispatchBlock(headers)
  {
    var cases: seq<(nat, Label)> := [];
    var k := 0;
    while k < |headers|
      invariant k <= |headers| && |cases| == k
      invariant forall i :: 0 <= i < k ==> cases[i] == (i, RestartOf(headers[i]))
    {
      cases := cases + [(k, RestartOf(headers[k]))];
      k := k + 1;
    }
    b := Block(map[], [Instr(Some(ResumeLabel), GetLabel, [])], Term([Use(ResumeLabel)], cases, Some(NoCREntry)));
    assert cases == DispatchBlock(headers).term.cases;
  }

  /** What is assumed of the function and its headers here. */
  ghost predicate Insertable(p: Program, headers: seq<Label>) {
    ProgramOk(p) && PhisExact(p) && forall h :: h in headers ==> h in p.blocks && h != p.entry && p.blocks[h].phis == map[]
  }

  lemma HookTargets(p: Program, headers: seq<Label>)
    requires Insertable(p, headers)
    ensures TermTargets(RedirectTerm(headers, p.blocks[p.entry].term)) <= p.blocks.Keys + HookLabels(headers)
  {
    assert BlockOk(p, p.blocks[p.entry]);
    forall l | l in TermTargets(RedirectTerm(headers, p.blocks[p.entry].term))
      ensures l in p.blocks.Keys + HookLabels(headers)
    {
      UnredirectedTarget(headers, p.blocks[p.entry].term, l);
    }
  }

  /** Phis away from the successors of the entry do not name it. */
  lemma OnlySuccessors(p: Program, headers: seq<Label>, l: Label)
    requires Insertable(p, headers) && l in p.blocks
    ensures l in TermTargets(RedirectTerm(headers, p.blocks[p.entry].term)) || RenamePhis(p.entry, p.blocks[l].phis) == p.blocks[l].phis
  {
    if l !in TermTargets(RedirectTerm(headers, p.blocks[p.entry].term)) {
      forall x | x in p.blocks[l].phis ensures p.entry !in p.blocks[l].phis[x] {
        if p.entry in p.blocks[l].phis[x] {
          assert l in TermTargets(p.blocks[p.entry].term) && l !in headers;
          RedirectedTargets(headers, p.blocks[p.entry].term, l);
        }
      }
    }
  }

  /** The blocks with their code moved and the switch in place, the inserted blocks still empty. */
  function Opened(p: Program, headers: seq<Label>): map<Label, Block>
    requires p.entry in p.blocks
  {
    var entry := WithHooks(p, headers)[p.entry];
    RenamedIn(WithHooks(p, headers), p.entry, TermTargets(entry.term))
      [NoCREntry := Block(map[], entry.body, entry.term)][p.entry := DispatchBlock(headers)]
  }

  /** `insertRestartBlock` */
  method InsertRestartBlock(p: Program, headers: seq<Label>, blocks: map<Label, Block>) returns (r: map<Label, Block>)
    requires Insertable(p, headers) && blocks == WithHooks(p, headers)
    ensures r == Opened(p, headers)
  {
    HookTargets(p, headers);
    var entry := blocks[p.entry];
    r := RenameSuccessors(blocks, p.entry, TermTargets(entry.term));
    var switch := CreateSwitch(headers);
    r := r[NoCREntry := Block(map[], entry.body, entry.term)][p.entry := switch];
  }

  lemma HeaderHooks(headers: seq<Label>)
    requires forall h :: h in headers ==> h.Orig?
    ensures HookLabels(headers) + {NoCREntry} == InsertedLabels(headers)
    ensures forall l :: l in HookLabels(headers) ==> (l.Checkpoint? || l.Restart?) && Orig(l.id) in headers
  {
  }

  lemma OpenedAt(p: Program, headers: seq<Label>, l: Label)
    requires Insertable(p, headers) && l in AllLabels(p, Plan(headers, map[]))
    ensures l in Opened(p, headers) && Opened(p, headers)[l] == InstrumentedBlock(p, Plan(headers, map[]), l)
  {
    HeaderHooks(headers);
    if l in p.blocks { OnlySuccessors(p, headers, l); }
    assert RenamePhis(p.entry, map[]) == map[];
  }

  lemma OpenedKeys(p: Program, headers: seq<Label>)
    requires Insertable(p, headers)
    ensures Opened(p, headers).Keys == AllLabels(p, Plan(headers, map[]))
  {
    HeaderHooks(headers);
  }

  lemma OpenedIsInstrumented(p: Program, headers: seq<Label>)
    requires Insertable(p, headers)
    ensures Opened(p, headers) == Instrumented(p, Plan(headers, map[])).blocks
  {
    OpenedKeys(p, headers);
    forall l | l in AllLabels(p, Plan(headers, map[]))
      ensures l in Opened(p, headers) && Opened(p, headers)[l] == Instrumented(p, Plan(headers, map[])).blocks[l]
    {
      OpenedAt(p, headers, l);
    }
  }

  // ----- the code of the inserted blocks -----

  function LabelSet(hs: seq<Label>): set<Label> {
    set h | h in hs
  }

  function WithCode(plan: Plan, hs: set<Label>, l: Label, b: Block): Block {
    if l.Checkpoint? && Orig(l.id) in hs then b.(body := EmittedFor(plan, Orig(l.id)).saves)
    else if l.Restart? && Orig(l.id) in hs then b.(body := EmittedFor(plan, Orig(l.id)).restores)
    else b
  }

  function AllWithCode(plan: Plan, hs: set<Label>, blocks: map<Label, Block>): map<Label, Block> {
    map l | l in blocks :: WithCode(plan, hs, l, blocks[l])
  }

  method InsertCode(plan: Plan, blocks: map<Label, Block>) returns (r: map<Label, Block>)
    requires forall h :: h in plan.headers ==> h.Orig? && CheckpointOf(h) in blocks && RestartOf(h) in blocks
    ensures r == AllWithCode(plan, LabelSet(plan.headers), blocks)
  {
    r := blocks;
    var k := 0;
    while k < |plan.headers|
      invariant k <= |plan.headers| && r == AllWithCode(plan, LabelSet(plan.headers[..k]), blocks)
    {
      var h := plan.headers[k];
      var code := EmittedFor(plan, h);
      assert plan.headers[..k + 1] == plan.headers[..k] + [h];
      CodeMore(plan, LabelSet(plan.headers[..k]), h, blocks);
      r := r[CheckpointOf(h) := r[CheckpointOf(h)].(body := code.saves)];
      r := r[RestartOf(h) := r[RestartOf(h)].(body := code.restores)];
      LabelSetMore(plan.headers[..k], h);
      k := k + 1;
    }
    assert plan.headers[..k] == plan.headers;
  }

  lemma LabelSetMore(hs: seq<Label>, h: Label)
    ensures LabelSet(hs + [h]) == LabelSet(hs) + {h}
  {
  }

  lemma CodeMore(plan: Plan, hs: set<Label>, h: Label, blocks: map<Label, Block>)
    requires h.Orig? && CheckpointOf(h) in blocks && RestartOf(h) in blocks
    ensures var r := AllWithCode(plan, hs, blocks);
            var code := EmittedFor(plan, h);
            r[CheckpointOf(h) := r[CheckpointOf(h)].(body := code.saves)][RestartOf(h) := r[RestartOf(h)].(body := code.restores)]
            == AllWithCode(plan, hs + {h}, blocks)
  {
  }

  lemma CodeAt(p: Program, plan: Plan, l: Label)
    requires Insertable(p, plan.headers) && l in AllLabels(p, plan)
    ensures WithCode(plan, LabelSet(plan.headers), l, InstrumentedBlock(p, Plan(plan.headers, map[]), l)) == InstrumentedBlock(p, plan, l)
  {
    HeaderHooks(plan.headers);
  }

  lemma CodeIsInstrumented(p: Program, plan: Plan)
    requires Insertable(p, plan.headers)
    ensures AllWithCode(plan, LabelSet(plan.headers), Instrumented(p, Plan(plan.headers, map[])).blocks) == Instrumented(p, plan).blocks
  {
    forall l | l in AllLabels(p, plan)
      ensures WithCode(plan, LabelSet(plan.headers), l, Instrumented(p, Plan(plan.headers, map[])).blocks[l]) ==
              Instrumented(p, plan).blocks[l]
    {
      CodeAt(p, plan, l);
    }
  }

  /** The blocks of a function with the pass's blocks in place and filled. */
  method Instrument(p: Program, plan: Plan) returns (q: Program)
    requires Insertable(p, plan.headers)
    requires forall i, j :: 0 <= i < j < |plan.headers| ==> plan.headers[i] != plan.headers[j]
    ensures q == Instrumented(p, plan)
  {
    assert forall h :: h in plan.headers ==> h.Orig?;
    var blocks := CreateBlocks(p, plan.headers);
    blocks := InsertRestartBlock(p, plan.headers, blocks);
    OpenedIsInstrumented(p, plan.headers);
    HooksThere(p, plan.headers);
    blocks := InsertCode(plan, blocks);
    CodeIsInstrumented(p, plan);
    q := Program(blocks, p.entry, p.args);
  }

  lemma HooksThere(p: Program, headers: seq<Label>)
    requires Insertable(p, headers)
    ensures forall h :: h in headers ==>
              CheckpointOf(h) in Instrumented(p, Plan(headers, map[])).blocks
              && RestartOf(h) in Instrumented(p, Plan(headers, map[])).blocks
  {
    forall h | h in headers
      ensures CheckpointOf(h) in AllLabels(p, Plan(headers, map[])) && RestartOf(h) in AllLabels(p, Plan(headers, map[]))
    {
      assert CheckpointOf(h) in InsertedLabels(headers) && RestartOf(h) in InsertedLabels(headers);
    }
  }
}
