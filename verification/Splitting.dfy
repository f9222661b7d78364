/**
  `CFGFunction::setUpCFG`: a block with phis is split behind them, so that no block has both
  phis and code, and a header without phis can be checkpointed.
 */
module Splitting {
  import opened Records
  import opened IR
  import opened Runs
  import opened Transform
  import opened Simulation

  /** The new block for each block that is split. */
  type Tails = map<Label, Label>

  function TailOf(tails: Tails, n: Label): Label {
    if n in tails then tails[n] else n
  }

  /** New blocks, for exactly the blocks with phis. */
  ghost predicate TailsOk(p: Program, tails: Tails) {
    && (forall n :: n in p.blocks ==> (n in tails <==> p.blocks[n].phis != map[]))
    && (forall n :: n in tails ==> n in p.blocks && tails[n] !in p.blocks)
    && forall m, n :: m in tails && n in tails && tails[m] == tails[n] ==> m == n
  }

  /** Phis name the blocks that now end in a branch to them. */
  function RenamedTails(tails: Tails, inc: Incoming): Incoming
    requires forall m, n :: m in inc && n in inc && TailOf(tails, m) == TailOf(tails, n) ==> m == n
  {
    map m | m in inc :: TailOf(tails, m) := inc[m]
  }

  /** No block a phi names is one of the new blocks. */
  ghost predicate PhisOld(p: Program) {
    forall n, x :: n in p.blocks && x in p.blocks[n].phis ==> p.blocks[n].phis[x].Keys <= p.blocks.Keys
  }

  lemma TailsInjective(p: Program, tails: Tails, m: Label, n: Label)
    requires TailsOk(p, tails) && m in p.blocks && n in p.blocks && TailOf(tails, m) == TailOf(tails, n)
    ensures m == n
  {
  }

  function HeadPhis(p: Program, tails: Tails, n: Label): map<Value, Incoming>
    requires TailsOk(p, tails) && PhisOld(p) && n in p.blocks
  {
    map x | x in p.blocks[n].phis ::
      (var inc := p.blocks[n].phis[x];
       assert forall a, b :: a in inc && b in inc && TailOf(tails, a) == TailOf(tails, b) ==> a == b;
       RenamedTails(tails, inc))
  }

  function HeadBlock(p: Program, tails: Tails, n: Label): Block
    requires TailsOk(p, tails) && PhisOld(p) && n in p.blocks
  {
    if n in tails then Block(HeadPhis(p, tails, n), [], Jump(tails[n]))
    else Block(map[], p.blocks[n].body, p.blocks[n].term)
  }

  /** `t` is `p` with its blocks split. */
  ghost predicate IsSplit(p: Program, tails: Tails, t: Program)
    requires TailsOk(p, tails) && PhisOld(p)
  {
    && t.entry == p.entry && t.args == p.args
    && t.blocks.Keys == p.blocks.Keys + tails.Values
    && (forall n :: n in p.blocks ==> t.blocks[n] == HeadBlock(p, tails, n))
    && (forall n :: n in tails ==> t.blocks[tails[n]] == Block(map[], p.blocks[n].body, p.blocks[n].term))
  }

  function Heads(p: Program, tails: Tails): map<Label, Block>
    requires TailsOk(p, tails) && PhisOld(p)
  {
    map n | n in p.blocks :: HeadBlock(p, tails, n)
  }

  function Rests(p: Program): map<Label, Block> {
    map n | n in p.blocks :: Block(map[], p.blocks[n].body, p.blocks[n].term)
  }

  /** The blocks behind the splits that are done. */
  ghost predicate SplitSoFar(heads: map<Label, Block>, rests: map<Label, Block>, tails: Tails, todo: set<Label>, blocks: map<Label, Block>)
    requires tails.Keys <= heads.Keys && rests.Keys == heads.Keys
  {
    && todo <= heads.Keys
    && blocks.Keys == (heads.Keys - todo) + (set n | n in tails && n !in todo :: tails[n])
    && (forall n :: n in heads && n !in todo ==> blocks[n] == heads[n])
    && forall n :: n in tails && n !in todo ==> blocks[tails[n]] == rests[n]
  }

  lemma OneSplit(heads: map<Label, Block>, rests: map<Label, Block>, tails: Tails, todo: set<Label>, blocks: map<Label, Block>, n: Label)
    requires tails.Keys <= heads.Keys && rests.Keys == heads.Keys && tails.Values !! heads.Keys
    requires forall m, k :: m in tails && k in tails && tails[m] == tails[k] ==> m == k
    requires SplitSoFar(heads, rests, tails, todo, blocks) && n in todo
    ensures var more := blocks[n := heads[n]];
            SplitSoFar(heads, rests, tails, todo - {n}, if n in tails then more[tails[n] := rests[n]] else more)
  {
  }

  lemma NoneLeft(heads: map<Label, Block>, rests: map<Label, Block>, tails: Tails, blocks: map<Label, Block>)
    requires tails.Keys <= heads.Keys && rests.Keys == heads.Keys && SplitSoFar(heads, rests, tails, {}, blocks)
    ensures blocks.Keys == heads.Keys + tails.Values && (forall n :: n in heads ==> blocks[n] == heads[n])
    ensures forall n :: n in tails ==> tails[n] in blocks && blocks[tails[n]] == rests[n]
  {
    assert tails.Values == set n | n in tails && n !in {} :: tails[n];
  }

  lemma AllSplit(p: Program, tails: Tails, t: Program)
    requires TailsOk(p, tails) && PhisOld(p) && t.entry == p.entry && t.args == p.args
    requires SplitSoFar(Heads(p, tails), Rests(p), tails, {}, t.blocks)
    ensures IsSplit(p, tails, t)
  {
    var heads, rests := Heads(p, tails), Rests(p);
    NoneLeft(heads, rests, tails, t.blocks);
    assert heads.Keys == p.blocks.Keys;
    assert forall n :: n in p.blocks ==> heads[n] == HeadBlock(p, tails, n);
    assert forall n :: n in p.blocks ==> rests[n] == Block(map[], p.blocks[n].body, p.blocks[n].term);
  }

  method SplitBlocks(p: Program, tails: Tails) returns (t: Program)
    requires TailsOk(p, tails) && PhisOld(p)
    ensures IsSplit(p, tails, t)
  {
    ghost var heads, rests := Heads(p, tails), Rests(p);
    var blocks: map<Label, Block> := map[];
    var todo := p.blocks.Keys;
    while todo != {}
      invariant SplitSoFar(heads, rests, tails, todo, blocks)
      decreases todo
    {
      var n :| n in todo;
      OneSplit(heads, rests, tails, todo, blocks, n);
      blocks := blocks[n := HeadBlock(p, tails, n)];
      if n in tails {
        blocks := blocks[tails[n] := Block(map[], p.blocks[n].body, p.blocks[n].term)];
      }
      todo := todo - {n};
    }
    t := Program(blocks, p.entry, p.args);
    AllSplit(p, tails, t);
  }

  /** No block has both phis and code, and a split header is a block without phis. */
  lemma NoPhisWithCode(p: Program, tails: Tails, t: Program, n: Label)
    requires TailsOk(p, tails) && PhisOld(p) && IsSplit(p, tails, t) && n in p.blocks
    ensures t.blocks[n].phis == map[] || t.blocks[n].body == []
    ensures TailOf(tails, n) in t.blocks && t.blocks[TailOf(tails, n)].phis == map[]
  {
  }

  /** Where a header that is split goes on. */
  lemma HeaderBehind(p: Program, tails: Tails, t: Program, h: Label)
    requires TailsOk(p, tails) && PhisOld(p) && IsSplit(p, tails, t) && h in p.blocks && h != p.entry && p.entry in p.blocks
    ensures TailOf(tails, h) in t.blocks && TailOf(tails, h) != t.entry && t.blocks[TailOf(tails, h)].phis == map[]
  {
    NoPhisWithCode(p, tails, t, h);
  }

  // ----- the same runs -----

  /** Before the same block, which control enters from the block that stands for the one it came from. */
  ghost predicate AtSame(p: Program, tails: Tails, s: State, r: State) {
    && s.pred in p.blocks && s.at in p.blocks && r.at == s.at && r.pred == TailOf(tails, s.pred) && r.env == s.env && r.world == s.world
  }

  lemma RenamedOperand(p: Program, tails: Tails, inc: Incoming, pred: Label)
    requires TailsOk(p, tails) && inc.Keys <= p.blocks.Keys && pred in p.blocks
    requires forall m, n :: m in inc && n in inc && TailOf(tails, m) == TailOf(tails, n) ==> m == n
    ensures TailOf(tails, pred) in RenamedTails(tails, inc) <==> pred in inc
    ensures pred in inc ==> RenamedTails(tails, inc)[TailOf(tails, pred)] == inc[pred]
  {
    if TailOf(tails, pred) in RenamedTails(tails, inc) {
      var m :| m in inc && TailOf(tails, m) == TailOf(tails, pred);
      TailsInjective(p, tails, m, pred);
    }
  }

  lemma HeadPhiRun(p: Program, tails: Tails, n: Label, pred: Label, x: Value)
    requires TailsOk(p, tails) && PhisOld(p) && n in p.blocks && pred in p.blocks && x in p.blocks[n].phis
    ensures TailOf(tails, pred) in HeadPhis(p, tails, n)[x] <==> pred in p.blocks[n].phis[x]
    ensures pred in p.blocks[n].phis[x] ==> HeadPhis(p, tails, n)[x][TailOf(tails, pred)] == p.blocks[n].phis[x][pred]
  {
    var inc := p.blocks[n].phis[x];
    forall a, b | a in inc && b in inc && TailOf(tails, a) == TailOf(tails, b) ensures a == b {
      TailsInjective(p, tails, a, b);
    }
    RenamedOperand(p, tails, inc, pred);
  }

  lemma SameOperands(phis: map<Value, Incoming>, heads: map<Value, Incoming>, pred: Label, tail: Label, env: Env)
    requires heads.Keys == phis.Keys
    requires forall x :: x in phis ==> (tail in heads[x] <==> pred in phis[x]) && (pred in phis[x] ==> heads[x][tail] == phis[x][pred])
    ensures RunPhis(heads, tail, env) == RunPhis(phis, pred, env)
  {
  }

  lemma HeadPhisRun(p: Program, tails: Tails, n: Label, pred: Label, env: Env)
    requires TailsOk(p, tails) && PhisOld(p) && n in p.blocks && pred in p.blocks
    ensures RunPhis(HeadPhis(p, tails, n), TailOf(tails, pred), env) == RunPhis(p.blocks[n].phis, pred, env)
  {
    var heads, phis, tail := HeadPhis(p, tails, n), p.blocks[n].phis, TailOf(tails, pred);
    forall x | x in phis
      ensures (tail in heads[x] <==> pred in phis[x]) && (pred in phis[x] ==> heads[x][tail] == phis[x][pred])
    {
      HeadPhiRun(p, tails, n, pred, x);
    }
    SameOperands(phis, heads, pred, tail, env);
  }

  /** One step of `f` is one step of `g`, or two with a block outside `labels` between them. */
  ghost predicate OneOrTwo(f: Stepper, g: Stepper, alike: Likeness, labels: set<Label>, s: State, r: State) {
    || BothLike(alike, f(s), g(r))
    || (g(r).Some? && g(r).value.at !in labels && BothLike(alike, f(s), g(g(r).value)))
  }

  lemma WholeBlock(sem: Sem, p: Program, tails: Tails, t: Program, s: State, r: State)
    requires TailsOk(p, tails) && PhisOld(p) && IsSplit(p, tails, t) && AtSame(p, tails, s, r)
    requires s.at !in tails && TermTargets(p.blocks[s.at].term) <= p.blocks.Keys
    ensures BothLike((a, c) => AtSame(p, tails, a, c), Step(sem, p, s), Step(sem, t, r))
  {
    NoPhis(s.pred, s.env);
    NoPhis(r.pred, r.env);
    TargetIsSuccessor(p.blocks[s.at].term, RunBody(sem, p.blocks[s.at].body, s.env, s.world).0);
  }

  /** The head of a split block runs the phis. */
  lemma HeadStep(sem: Sem, p: Program, tails: Tails, t: Program, s: State, r: State)
    requires TailsOk(p, tails) && PhisOld(p) && IsSplit(p, tails, t) && AtSame(p, tails, s, r) && s.at in tails
    ensures Step(sem, t, r) == Some(State(s.at, tails[s.at], RunPhis(p.blocks[s.at].phis, s.pred, s.env), s.world))
  {
    HeadPhisRun(p, tails, s.at, s.pred, s.env);
    JumpStep(sem, t, r, HeadPhis(p, tails, s.at), tails[s.at]);
  }

  /** A block with phis only. */
  lemma JumpStep(sem: Sem, t: Program, r: State, phis: map<Value, Incoming>, next: Label)
    requires r.at in t.blocks && t.blocks[r.at] == Block(phis, [], Jump(next))
    ensures Step(sem, t, r) == Some(State(r.at, next, RunPhis(phis, r.pred, r.env), r.world))
  {
  }

  /** The tail runs the code. */
  lemma TailStep(sem: Sem, p: Program, tails: Tails, t: Program, s: State, mid: State)
    requires TailsOk(p, tails) && PhisOld(p) && IsSplit(p, tails, t) && s.at in tails
    requires mid == State(s.at, tails[s.at], RunPhis(p.blocks[s.at].phis, s.pred, s.env), s.world)
    requires TermTargets(p.blocks[s.at].term) <= p.blocks.Keys
    ensures BothLike((a, c) => AtSame(p, tails, a, c), Step(sem, p, s), Step(sem, t, mid))
  {
    NoPhis(mid.pred, mid.env);
    TargetIsSuccessor(p.blocks[s.at].term, RunBody(sem, p.blocks[s.at].body, mid.env, s.world).0);
  }

  lemma SplitBlock(sem: Sem, p: Program, tails: Tails, t: Program, s: State, r: State)
    requires TailsOk(p, tails) && PhisOld(p) && IsSplit(p, tails, t) && AtSame(p, tails, s, r) && s.at in tails
    requires TermTargets(p.blocks[s.at].term) <= p.blocks.Keys
    ensures Step(sem, t, r).Some? && Step(sem, t, r).value.at !in p.blocks
    ensures BothLike((a, c) => AtSame(p, tails, a, c), Step(sem, p, s), Step(sem, t, Step(sem, t, r).value))
  {
    HeadStep(sem, p, tails, t, s, r);
    TailStep(sem, p, tails, t, s, Step(sem, t, r).value);
  }

  /** Shown are the blocks in `labels`. */
  function Shown(labels: set<Label>, trace: seq<Label>): seq<Label> {
    if trace == [] then [] else (if trace[0] in labels then [trace[0]] else []) + Shown(labels, trace[1..])
  }

  lemma ShownTrace(labels: set<Label>, g: Stepper, r: State, k: nat)
    requires k > 0
    ensures Shown(labels, Trace(g, r, k)) ==
            (if r.at in labels then [r.at] else []) + (if g(r).None? then [] else Shown(labels, Trace(g, g(r).value, k - 1)))
  {
    var rest := if g(r).None? then [] else Trace(g, g(r).value, k - 1);
    assert Trace(g, r, k) == [r.at] + rest && ([r.at] + rest)[1..] == rest;
  }

  lemma ShownShows(labels: set<Label>, g: Stepper, r: State, k: nat)
    requires r.at in labels
    ensures g(r).None? ==> Shown(labels, Trace(g, r, k + 1)) == [r.at]
    ensures g(r).Some? ==> Shown(labels, Trace(g, r, k + 1)) == [r.at] + Shown(labels, Trace(g, g(r).value, k))
  {
    ShownTrace(labels, g, r, k + 1);
  }

  lemma ShownHides(labels: set<Label>, g: Stepper, r: State, k: nat)
    requires r.at !in labels
    ensures g(r).None? ==> Shown(labels, Trace(g, r, k + 1)) == []
    ensures g(r).Some? ==> Shown(labels, Trace(g, r, k + 1)) == Shown(labels, Trace(g, g(r).value, k))
  {
    ShownTrace(labels, g, r, k + 1);
  }

  /** Runs made of such steps show the same blocks and stay alike. */
  lemma {:induction false} SplitRuns(f: Stepper, g: Stepper, alike: Likeness, labels: set<Label>, s: State, r: State, k: nat)
    returns (j: nat)
    requires forall a, c {:trigger Compare(a, c)} :: Compare(a, c) && alike(a, c) ==>
               c.at == a.at && a.at in labels && OneOrTwo(f, g, alike, labels, a, c)
    requires alike(s, r)
    ensures Shown(labels, Trace(g, r, j)) == Trace(f, s, k)
    ensures BothLike(alike, Run(f, s, k), Run(g, r, j))
    decreases k
  {
    if k == 0 {
      j := 0;
    } else {
      assert Compare(s, r);
      var last := if BothLike(alike, f(s), g(r)) then r else g(r).value;
      var i := 0;
      if f(s).Some? {
        i := SplitRuns(f, g, alike, labels, f(s).value, g(last).value, k - 1);
      }
      j := LastStep(f, g, alike, labels, s, r, last, k - 1, i);
    }
  }

  lemma LastStep(f: Stepper, g: Stepper, alike: Likeness, labels: set<Label>, s: State, r: State, last: State, k: nat, i: nat)
    returns (j: nat)
    requires r.at == s.at && s.at in labels && BothLike(alike, f(s), g(last))
    requires last == r || (g(r) == Some(last) && last.at !in labels)
    requires f(s).Some? ==>
               && Shown(labels, Trace(g, g(last).value, i)) == Trace(f, f(s).value, k)
               && BothLike(alike, Run(f, f(s).value, k), Run(g, g(last).value, i))
    ensures Shown(labels, Trace(g, r, j)) == Trace(f, s, k + 1)
    ensures BothLike(alike, Run(f, s, k + 1), Run(g, r, j))
  {
    if f(s).Some? {
      RunGoesOn(f, s, k);
      RunGoesOn(g, last, i);
    } else {
      RunEnds(f, s, k + 1);
      RunEnds(g, last, i + 1);
    }
    j := i + 1;
    if last.at in labels {
      ShownShows(labels, g, r, i);
    } else {
      ShownHides(labels, g, last, i);
      ShownShows(labels, g, r, i + 1);
      RunGoesOn(g, r, i + 1);
      j := i + 2;
    }
  }

  /** Splitting keeps every run: the same blocks, values and memory. */
  lemma SplitKeepsRuns(sem: Sem, p: Program, tails: Tails, t: Program, s: State, r: State, k: nat) returns (j: nat)
    requires TailsOk(p, tails) && PhisOld(p) && IsSplit(p, tails, t) && AtSame(p, tails, s, r)
    requires forall n :: n in p.blocks ==> TermTargets(p.blocks[n].term) <= p.blocks.Keys
    ensures Shown(p.blocks.Keys, Trace(Steps(sem, t), r, j)) == Trace(Steps(sem, p), s, k)
    ensures BothLike((a, c) => AtSame(p, tails, a, c), Run(Steps(sem, p), s, k), Run(Steps(sem, t), r, j))
  {
    ghost var alike: Likeness := (a, c) => AtSame(p, tails, a, c);
    forall a, c | Compare(a, c) && alike(a, c)
      ensures c.at == a.at && a.at in p.blocks.Keys && OneOrTwo(Steps(sem, p), Steps(sem, t), alike, p.blocks.Keys, a, c)
    {
      if a.at in tails { SplitBlock(sem, p, tails, t, a, c); } else { WholeBlock(sem, p, tails, t, a, c); }
    }
    j := SplitRuns(Steps(sem, p), Steps(sem, t), alike, p.blocks.Keys, s, r, k);
  }
}
