/**
  Splitting keeps what the pass relies on, and what is left to assume of the function.
 */
module Prepared {
  import opened Records
  import opened IR
  import opened Pointers
  import opened Paths
  import opened Runs
  import opened UseDef
  import opened Transform
  import opened Function
  import opened Simulation
  import opened Rewriting
  import opened Locality
  import opened Emission
  import opened Typing
  import opened PhiAlias
  import opened PointerSizes
  import opened PointerAnalysis
  import opened Preparation
  import opened Splitting

  // ----- a split function -----

  /** The block of the function that a block of the split function is a part of. */
  lemma PartOf(p: Program, tails: Tails, t: Program, l: Label) returns (n: Label)
    requires TailsOk(p, tails) && PhisOld(p) && IsSplit(p, tails, t) && l in t.blocks
    ensures n in p.blocks && ((l == n && t.blocks[l] == HeadBlock(p, tails, n))
                              || (n in tails && l == tails[n] && t.blocks[l] == Block(map[], p.blocks[n].body, p.blocks[n].term)))
  {
    if l in p.blocks {
      n := l;
    } else {
      n :| n in tails && tails[n] == l;
    }
  }

  /** Where the code of a block is. */
  lemma CodeAt(p: Program, tails: Tails, t: Program, n: Label)
    requires TailsOk(p, tails) && PhisOld(p) && IsSplit(p, tails, t) && n in p.blocks
    ensures TailOf(tails, n) in t.blocks && t.blocks[TailOf(tails, n)].term == p.blocks[n].term
  {
    if n in tails { assert tails[n] in tails.Values; }
  }

  /** An operand of a phi at the head of a split block. */
  lemma HeadOperand(p: Program, tails: Tails, n: Label, x: Value, l: Label) returns (m: Label)
    requires TailsOk(p, tails) && PhisOld(p) && n in p.blocks && x in p.blocks[n].phis && l in HeadPhis(p, tails, n)[x]
    ensures m in p.blocks[n].phis[x] && m in p.blocks && l == TailOf(tails, m)
    ensures HeadPhis(p, tails, n)[x][l] == p.blocks[n].phis[x][m]
  {
    var inc := p.blocks[n].phis[x];
    m :| m in inc && TailOf(tails, m) == l;
    HeadPhiRun(p, tails, n, m, x);
  }

  lemma HeadTyped(ps: Pointers, ty: Types, p: Program, tails: Tails, n: Label, x: Value, l: Label)
    requires TailsOk(p, tails) && PhisOld(p) && n in p.blocks && NearlyTyped(ps, ty, p.blocks[n])
    requires x in p.blocks[n].phis && l in HeadPhis(p, tails, n)[x]
    ensures PhiTyped(ps, ty, HeadPhis(p, tails, n), x, l)
  {
    var m := HeadOperand(p, tails, n, x, l);
    assert PhiTyped(ps, ty, p.blocks[n].phis, x, m);
    if x in ps.info {
      HeadPhiRun(p, tails, n, m, ps.info[x].typeSizeInBits.v);
      HeadPhiRun(p, tails, n, m, ps.info[x].numElements.v);
    }
  }

  lemma SplitTyped(ps: Pointers, ty: Types, p: Program, tails: Tails, t: Program, l: Label)
    requires TailsOk(p, tails) && PhisOld(p) && IsSplit(p, tails, t) && l in t.blocks
    requires forall n :: n in p.blocks ==> NearlyTyped(ps, ty, p.blocks[n])
    ensures NearlyTyped(ps, ty, t.blocks[l])
  {
    var n := PartOf(p, tails, t, l);
    if l == n && n in tails {
      forall x, m | x in t.blocks[l].phis && m in t.blocks[l].phis[x] ensures PhiTyped(ps, ty, t.blocks[l].phis, x, m) {
        HeadTyped(ps, ty, p, tails, n, x, m);
      }
    }
  }

  lemma HeadOk(p: Program, tails: Tails, t: Program, n: Label)
    requires ProgramOk(p) && TailsOk(p, tails) && PhisOld(p) && IsSplit(p, tails, t) && n in tails
    ensures BlockOk(t, Block(HeadPhis(p, tails, n), [], Jump(tails[n])))
  {
    assert BlockOk(p, p.blocks[n]);
    assert tails[n] in tails.Values;
    JumpTargets(tails[n]);
    forall x | x in HeadPhis(p, tails, n) ensures HeadPhis(p, tails, n)[x].Keys <= t.blocks.Keys {
      forall k | k in HeadPhis(p, tails, n)[x] ensures k in t.blocks {
        var m := HeadOperand(p, tails, n, x, k);
        CodeAt(p, tails, t, m);
      }
    }
  }

  lemma CodeOk(p: Program, t: Program, b: Block)
    requires BlockOk(p, b) && p.blocks.Keys <= t.blocks.Keys && t.entry == p.entry
    ensures BlockOk(t, Block(map[], b.body, b.term))
  {
  }

  lemma SplitBlockOk(p: Program, tails: Tails, t: Program, l: Label)
    requires ProgramOk(p) && TailsOk(p, tails) && PhisOld(p) && IsSplit(p, tails, t) && l in t.blocks
    ensures BlockOk(t, t.blocks[l])
  {
    var n := PartOf(p, tails, t, l);
    assert BlockOk(p, p.blocks[n]);
    if l == n && n in tails {
      HeadOk(p, tails, t, n);
    } else {
      CodeOk(p, t, p.blocks[n]);
    }
  }

  lemma SplitPhis(p: Program, tails: Tails, t: Program, n: Label, x: Value)
    requires TailsOk(p, tails) && PhisOld(p) && IsSplit(p, tails, t) && n in t.blocks && x in t.blocks[n].phis
    ensures n in p.blocks && n in tails && x in p.blocks[n].phis && t.blocks[n].phis == HeadPhis(p, tails, n)
  {
    var k := PartOf(p, tails, t, n);
  }

  /** Where an edge of the split function comes from, unless it is the one from the head of a split block to its tail. */
  lemma EdgeFrom(p: Program, tails: Tails, t: Program, m: Label, n: Label) returns (k: Label)
    requires TailsOk(p, tails) && PhisOld(p) && IsSplit(p, tails, t)
    requires m in t.blocks && n in TermTargets(t.blocks[m].term) && n in p.blocks
    ensures k in p.blocks && m == TailOf(tails, k) && n in TermTargets(p.blocks[k].term)
  {
    k := PartOf(p, tails, t, m);
    if k in tails { JumpTargets(tails[k]); }
  }

  lemma JumpTargets(l: Label)
    ensures TermTargets(Jump(l)) == {l}
  {
  }

  lemma SplitComplete(p: Program, tails: Tails, t: Program, m: Label, n: Label, x: Value)
    requires ProgramOk(p) && TailsOk(p, tails) && PhisOld(p) && IsSplit(p, tails, t)
    requires m in t.blocks && n in t.blocks && n in TermTargets(t.blocks[m].term) && x in t.blocks[n].phis
    ensures m in t.blocks[n].phis[x]
  {
    SplitPhis(p, tails, t, n, x);
    var k := EdgeFrom(p, tails, t, m, n);
    OperandFor(p, k, n, x);
    HeadHas(p, tails, k, n, x);
  }

  lemma OperandFor(p: Program, k: Label, n: Label, x: Value)
    requires ProgramOk(p) && k in p.blocks && n in p.blocks && n in TermTargets(p.blocks[k].term) && x in p.blocks[n].phis
    ensures k in p.blocks[n].phis[x]
  {
  }

  lemma HeadHas(p: Program, tails: Tails, k: Label, n: Label, x: Value)
    requires TailsOk(p, tails) && PhisOld(p) && k in p.blocks && n in p.blocks && x in p.blocks[n].phis && k in p.blocks[n].phis[x]
    ensures TailOf(tails, k) in HeadPhis(p, tails, n)[x]
  {
    HeadPhiRun(p, tails, n, k, x);
  }

  lemma SplitExact(p: Program, tails: Tails, t: Program, n: Label, x: Value, m: Label)
    requires PhisExact(p) && TailsOk(p, tails) && PhisOld(p) && IsSplit(p, tails, t)
    requires n in t.blocks && x in t.blocks[n].phis && m in t.blocks[n].phis[x]
    ensures m in t.blocks && n in TermTargets(t.blocks[m].term)
  {
    SplitPhis(p, tails, t, n, x);
    var k := HeadOperand(p, tails, n, x, m);
    CodeAt(p, tails, t, k);
  }

  /** Splitting keeps the function in order. */
  lemma SplitOk(p: Program, tails: Tails, t: Program)
    requires ProgramOk(p) && PhisExact(p) && TailsOk(p, tails) && PhisOld(p) && IsSplit(p, tails, t)
    requires forall l :: l in tails.Values ==> l.Orig?
    ensures ProgramOk(t) && PhisExact(t)
  {
    forall l | l in t.blocks ensures l.Orig? && BlockOk(t, t.blocks[l]) {
      var n := PartOf(p, tails, t, l);
      if n in tails { assert tails[n] in tails.Values; }
      SplitBlockOk(p, tails, t, l);
    }
    forall m, n, x | m in t.blocks && n in t.blocks && n in TermTargets(t.blocks[m].term) && x in t.blocks[n].phis
      ensures m in t.blocks[n].phis[x]
    {
      SplitComplete(p, tails, t, m, n, x);
    }
    forall n, x, m | n in t.blocks && x in t.blocks[n].phis && m in t.blocks[n].phis[x]
      ensures m in t.blocks && n in TermTargets(t.blocks[m].term)
    {
      SplitExact(p, tails, t, n, x, m);
    }
    assert t.blocks[t.entry] == HeadBlock(p, tails, p.entry);
  }

  // ----- sizes come first -----

  lemma {:induction false} ExposedFrom(ps: Pointers, body: seq<Instr>, term: Term, k: nat, a: Value)
    requires ps.Acyclic() && k <= |body| && a in BodyNeeds(ps, body[k..], term) && a !in Dsts(body[..k])
    ensures a in BodyNeeds(ps, body, term)
  {
    if k > 0 {
      assert body[..k] == [body[0]] + body[1..][..k - 1] && body[1..][k - 1..] == body[k..];
      DstsCons(body[0], body[1..][..k - 1]);
      ExposedFrom(ps, body[1..], term, k - 1, a);
    } else {
      assert body[0..] == body;
    }
  }

  /** What an instruction needs in front of it: the sizes of the pointer it makes. */
  lemma SizesNeeded(ps: Pointers, ty: Types, i: Instr, a: Value)
    requires ps.Acyclic() && ScalarSizes(ps) && i.dst.Some? && ResultTyped(ps, ty, i.dst.value, i.op, i.args)
    requires a in SizeUses(ps, i.dst.value)
    ensures a in ArgNeeds(ps, i.args)
  {
    OperandsNeeded(ps, i.args, 0);
    if i.op.Offset? || i.op.Cast? {
      FirstArgNeeds(ps, i.args, a);
    }
  }

  lemma FirstArgNeeds(ps: Pointers, args: seq<Operand>, a: Value)
    requires ps.Acyclic() && ScalarSizes(ps) && |args| > 0 && args[0].Use? && a in SizeUses(ps, args[0].v)
    ensures a in ArgNeeds(ps, args)
  {
    SizesAreNeeds(ps, args[0].v, a);
    assert a in OperandNeeds(ps, args[0]);
  }

  lemma NotDefinedBefore(body: seq<Instr>, k: nat, a: Value)
    requires Once(body) && k <= |body| && a in Dsts(body[k..])
    ensures a !in Dsts(body[..k])
  {
    var i :| i in body[k..] && i.dst == Some(a);
    var j :| 0 <= j < |body[k..]| && body[k..][j] == i;
    forall g | 0 <= g < k ensures body[..k][g].dst != Some(a) { assert body[k + j].dst == Some(a); }
  }

  /** No size is defined behind its pointer: it would be live into its own block. */
  lemma SizeBefore(ps: Pointers, ty: Types, t: Program, l: Label, k: nat, a: Value)
    requires SSA(ps, t) && ProgramOk(t) && l in t.blocks && NearlyTyped(ps, ty, t.blocks[l])
    requires k < |t.blocks[l].body| && t.blocks[l].body[k].dst.Some? && a in SizeUses(ps, t.blocks[l].body[k].dst.value)
    ensures a !in Dsts(t.blocks[l].body[k..])
  {
    var b := t.blocks[l];
    if a in Dsts(b.body[k..]) {
      assert b.body[k] in b.body;
      SizesNeeded(ps, ty, b.body[k], a);
      assert b.body[k..][0] == b.body[k];
      assert a in BodyNeeds(ps, b.body[k..], b.term);
      NotDefinedBefore(b.body, k, a);
      ExposedFrom(ps, b.body, b.term, k, a);
      ExposedNotDefined(ps, t, l, a);
      DstsOfTail(b.body, k, a);
    }
  }

  lemma DstsOfTail(body: seq<Instr>, k: nat, a: Value)
    requires k <= |body| && a in Dsts(body[k..])
    ensures a in Dsts(body)
  {
  }

  lemma ExposedNotDefined(ps: Pointers, t: Program, l: Label, a: Value)
    requires SSA(ps, t) && ProgramOk(t) && l in t.blocks && a in BodyNeeds(ps, t.blocks[l].body, t.blocks[l].term)
    requires t.blocks[l].phis.Keys !! Dsts(t.blocks[l].body)
    ensures a !in Dsts(t.blocks[l].body)
  {
    var f := FlowOf(ps, t);
    BlockFlow(ps, t, l);
    if a in Dsts(t.blocks[l].body) {
      assert a in f.Use(l);
      UsedIsLive(f, a, l);
      LiveNotDefined(f, a, l);
      assert false;
    }
  }

  lemma {:induction false} SizesFirstFrom(ps: Pointers, body: seq<Instr>, k: nat)
    requires k <= |body|
    requires forall j, a :: k <= j < |body| && body[j].dst.Some? && a in SizeUses(ps, body[j].dst.value) ==> a !in Dsts(body[j..])
    ensures SizesFirst(ps, body[k..])
    decreases |body| - k
  {
    if k < |body| {
      SizesFirstFrom(ps, body, k + 1);
      assert body[k..][1..] == body[k + 1..] && body[k..][0] == body[k];
    }
  }

  lemma BlockIsTyped(ps: Pointers, ty: Types, t: Program, l: Label)
    requires SSA(ps, t) && ProgramOk(t) && l in t.blocks && NearlyTyped(ps, ty, t.blocks[l])
    ensures BlockTyped(ps, ty, t.blocks[l])
  {
    var body := t.blocks[l].body;
    forall j, a | 0 <= j < |body| && body[j].dst.Some? && a in SizeUses(ps, body[j].dst.value) ensures a !in Dsts(body[j..]) {
      SizeBefore(ps, ty, t, l, j, a);
    }
    SizesFirstFrom(ps, body, 0);
    assert body[0..] == body;
  }

  // ----- size phis change no run -----

  /** The two environments differ in `names` at most. */
  ghost predicate AgreeOff(names: set<Value>, env: Env, renv: Env) {
    forall v :: v !in names ==> Get(renv, v) == Get(env, v)
  }

  lemma ArgsOff(names: set<Value>, os: seq<Operand>, env: Env, renv: Env)
    requires AgreeOff(names, env, renv) && ArgUses(os) !! names
    ensures EvalAll(renv, os) == EvalAll(env, os)
  {
    forall i | 0 <= i < |os| ensures Eval(renv, os[i]) == Eval(env, os[i]) {
      if os[i].Use? { assert os[i] in os && os[i].v in ArgUses(os); }
    }
  }

  lemma {:induction false} BodyOff(sem: Sem, names: set<Value>, body: seq<Instr>, term: Term, env: Env, renv: Env, w: World)
    requires AgreeOff(names, env, renv) && Outside(body, term) !! names && Dsts(body) !! names
    ensures var (env', w') := RunBody(sem, body, env, w);
            var (renv', u') := RunBody(sem, body, renv, w);
            && u' == w' && AgreeOff(names, env', renv')
            && Target(term, renv') == Target(term, env') && ExitOf(term, renv', u') == ExitOf(term, env', w')
    decreases |body|
  {
    if body == [] {
      ArgsOff(names, term.args, env, renv);
    } else {
      var i, rest := body[0], body[1..];
      assert body == [i] + rest;
      DstsCons(i, rest);
      ArgsOff(names, i.args, env, renv);
      var (d, w1) := Exec(sem, i.op, EvalAll(env, i.args), w);
      AssignOff(names, i.dst, d, env, renv);
      BodyOff(sem, names, rest, term, Assign(env, i.dst, d), Assign(renv, i.dst, d), w1);
    }
  }

  lemma AssignOff(names: set<Value>, dst: Option<Value>, d: Data, env: Env, renv: Env)
    requires AgreeOff(names, env, renv)
    ensures AgreeOff(names, Assign(env, dst, d), Assign(renv, dst, d))
  {
    forall v | v !in names ensures Get(Assign(renv, dst, d), v) == Get(Assign(env, dst, d), v) {
      assert Get(renv, v) == Get(env, v);
    }
  }

  /** `more` has the phis of `phis`, and others under names of `names`. */
  ghost predicate PhisBeside(names: set<Value>, phis: map<Value, Incoming>, more: map<Value, Incoming>) {
    && (forall x :: x in phis ==> x in more && more[x] == phis[x])
    && (forall x :: x in more ==> x in phis || x in names)
    && forall x, m :: x in phis && m in phis[x] && phis[x][m].Use? ==> phis[x][m].v !in names
  }

  lemma PhisOff(names: set<Value>, phis: map<Value, Incoming>, more: map<Value, Incoming>, pred: Label, env: Env, renv: Env)
    requires AgreeOff(names, env, renv) && PhisBeside(names, phis, more)
    ensures AgreeOff(names, RunPhis(phis, pred, env), RunPhis(more, pred, renv))
  {
    forall v | v !in names ensures Get(RunPhis(more, pred, renv), v) == Get(RunPhis(phis, pred, env), v) {
      assert Get(renv, v) == Get(env, v);
      if v in phis && pred in phis[v] && phis[v][pred].Use? { assert Get(renv, phis[v][pred].v) == Get(env, phis[v][pred].v); }
    }
  }

  ghost predicate SameOff(names: set<Value>, s: State, r: State) {
    r.pred == s.pred && r.at == s.at && r.world == s.world && AgreeOff(names, s.env, r.env)
  }

  /** `q` is `p` with phis under names of `names`, which `p` does not know. */
  ghost predicate OnlyMorePhis(names: set<Value>, p: Program, q: Program) {
    && q.blocks.Keys == p.blocks.Keys && q.entry == p.entry
    && forall n :: n in p.blocks ==>
         && q.blocks[n].body == p.blocks[n].body && q.blocks[n].term == p.blocks[n].term
         && PhisBeside(names, p.blocks[n].phis, q.blocks[n].phis)
         && Outside(p.blocks[n].body, p.blocks[n].term) !! names && Dsts(p.blocks[n].body) !! names
  }

  lemma StepOff(sem: Sem, names: set<Value>, p: Program, q: Program, s: State, r: State)
    requires OnlyMorePhis(names, p, q) && SameOff(names, s, r)
    ensures BothLike((a, c) => SameOff(names, a, c), Step(sem, p, s), Step(sem, q, r))
    ensures Returned(sem, q, r) == Returned(sem, p, s)
  {
    if s.at in p.blocks {
      var b := p.blocks[s.at];
      PhisOff(names, b.phis, q.blocks[s.at].phis, s.pred, s.env, r.env);
      BodyOff(sem, names, b.body, b.term, RunPhis(b.phis, s.pred, s.env), RunPhis(q.blocks[s.at].phis, r.pred, r.env), s.world);
    }
  }

  /** Phis beside those of the function change nothing about its runs. */
  lemma MorePhisKeepRuns(sem: Sem, names: set<Value>, p: Program, q: Program, s: State, r: State, k: nat)
    requires OnlyMorePhis(names, p, q) && SameOff(names, s, r)
    ensures BothLike((a, c) => SameOff(names, a, c), Run(Steps(sem, p), s, k), Run(Steps(sem, q), r, k))
    ensures Trace(Steps(sem, q), r, k) == Trace(Steps(sem, p), s, k)
  {
    ghost var like: Likeness := (a, c) => SameOff(names, a, c);
    forall a, c | Compare(a, c) && like(a, c) ensures a.at == c.at && BothLike(like, Steps(sem, p)(a), Steps(sem, q)(c)) {
      StepOff(sem, names, p, q, a, c);
    }
    RunsAlike(Steps(sem, p), Steps(sem, q), like, s, r, k);
  }

  lemma UnusedByBlock(b: Block, names: set<Value>)
    requires forall v :: v in names ==> v !in UsedBy(b)
    ensures Outside(b.body, b.term) !! names
    ensures forall x, m :: x in b.phis && m in b.phis[x] && b.phis[x][m].Use? ==> b.phis[x][m].v !in names
  {
    forall x, m | x in b.phis && m in b.phis[x] && b.phis[x][m].Use? ensures b.phis[x][m].v !in names {
      assert b.phis[x][m].v in UsedBy(b);
    }
  }

  lemma BesideBlock(ty: Types, pointers: set<Value>, p: Program, phis: map<Value, Incoming>, sp: SizePhis, info: Infos, n: Label)
    requires Ready(ty, pointers, p, phis, sp, info) && n in p.blocks
    ensures var names := sp.sizeOf.Values + sp.countOf.Values;
            && PhisBeside(names, p.blocks[n].phis, WithSizes(p.blocks[n], sp).phis)
            && Outside(p.blocks[n].body, p.blocks[n].term) !! names && Dsts(p.blocks[n].body) !! names
  {
    var names, b := sp.sizeOf.Values + sp.countOf.Values, p.blocks[n];
    forall v | v in names ensures v !in UsedBy(b) && v !in Dsts(b.body) {
      NamesUnused(ty, pointers, p, phis, sp, info, v);
    }
    UnusedByBlock(b, names);
    MorePhis(ty, pointers, p, phis, sp, info, n, names);
  }

  lemma MorePhis(ty: Types, pointers: set<Value>, p: Program, phis: map<Value, Incoming>, sp: SizePhis, info: Infos, n: Label,
                 names: set<Value>)
    requires Ready(ty, pointers, p, phis, sp, info) && n in p.blocks && names == sp.sizeOf.Values + sp.countOf.Values
    ensures var b, q := p.blocks[n], WithSizes(p.blocks[n], sp);
            && (forall x :: x in b.phis ==> x in q.phis && q.phis[x] == b.phis[x])
            && forall x :: x in q.phis ==> x in b.phis || x in names
  {
    ReadyIsFresh(ty, pointers, p, phis, sp, info);
    forall x | x in p.blocks[n].phis ensures x in WithSizes(p.blocks[n], sp).phis && WithSizes(p.blocks[n], sp).phis[x] == p.blocks[n].phis[x] {
      OwnPhi(p, phis, sp, n, x);
    }
    forall y | y in WithSizes(p.blocks[n], sp).phis ensures y in p.blocks[n].phis || y in names {
      var x := PhiOfThree(p, phis, sp, n, y);
      if y !in p.blocks[n].phis { SizePhiNamed(sp, x, y, WithSizes(p.blocks[n], sp).phis[y]); }
    }
  }

  lemma SizePhiNamed(sp: SizePhis, x: Value, y: Value, inc: Incoming)
    requires SizePhiOf(sp, x, y, inc)
    ensures y in sp.sizeOf.Values + sp.countOf.Values
  {
  }

  lemma NamesUnused(ty: Types, pointers: set<Value>, p: Program, phis: map<Value, Incoming>, sp: SizePhis, info: Infos, v: Value)
    requires Ready(ty, pointers, p, phis, sp, info) && v in sp.sizeOf.Values + sp.countOf.Values
    ensures NewName(ty, pointers, p, v)
  {
    assert InReady(0);
  }

  /** So the size phis of the analysis change no run. */
  lemma SizePhisAreExtra(ty: Types, pointers: set<Value>, p: Program, phis: map<Value, Incoming>, sp: SizePhis, info: Infos)
    requires Ready(ty, pointers, p, phis, sp, info) && p.entry in p.blocks
    ensures OnlyMorePhis(sp.sizeOf.Values + sp.countOf.Values, p, AddSizePhis(p, sp))
  {
    AddedAt(p, sp, p.entry);
    forall n | n in p.blocks
      ensures AddSizePhis(p, sp).blocks[n] == WithSizes(p.blocks[n], sp)
      ensures PhisBeside(sp.sizeOf.Values + sp.countOf.Values, p.blocks[n].phis, WithSizes(p.blocks[n], sp).phis)
      ensures Outside(p.blocks[n].body, p.blocks[n].term) !! sp.sizeOf.Values + sp.countOf.Values
      ensures Dsts(p.blocks[n].body) !! sp.sizeOf.Values + sp.countOf.Values
    {
      AddedAt(p, sp, n);
      BesideBlock(ty, pointers, p, phis, sp, info, n);
    }
  }

  // ----- the function the pass is given -----

  /** The first block without phis behind a header. */
  function HeadersBehind(tails: Tails, headers: seq<Label>): seq<Label> {
    seq(|headers|, i requires 0 <= i < |headers| => TailOf(tails, headers[i]))
  }

  /** `t` is `p` analysed, with its size phis, split. */
  ghost predicate Prepares(ty: Types, pointers: set<Value>, p: Program, tails: Tails, names: set<Value>, info: Infos, q: Program,
                           t: Program)
  {
    && info.Keys == pointers && ProgramOk(t) && PhisExact(t) && OnlyMorePhis(names, p, q)
    && TailsOk(q, tails) && PhisOld(q) && IsSplit(q, tails, t)
    && forall depth :: var ps := Pointers(info, depth);
         && OriginsFit(ps, ty) && KnownAliases(ps) && t.args !! ps.info.Keys
         && forall l :: l in t.blocks ==> NearlyTyped(ps, ty, t.blocks[l])
  }

  lemma ReadyPrepares(ty: Types, pointers: set<Value>, p: Program, phis: map<Value, Incoming>, sp: SizePhis, tails: Tails, info: Infos,
                      t: Program)
    requires Ready(ty, pointers, p, phis, sp, info) && ProgramOk(p) && PhisExact(p)
    requires var q := AddSizePhis(p, sp); TailsOk(q, tails) && PhisOld(q) && IsSplit(q, tails, t)
    requires forall l :: l in tails.Values ==> l.Orig?
    ensures Prepares(ty, pointers, p, tails, sp.sizeOf.Values + sp.countOf.Values, info, AddSizePhis(p, sp), t)
  {
    SizePhisAreExtra(ty, pointers, p, phis, sp, info);
    var q := AddSizePhis(p, sp);
    WithSizesOk(ty, pointers, p, phis, sp, info);
    SplitOk(q, tails, t);
    forall depth ensures var ps := Pointers(info, depth);
                         && OriginsFit(ps, ty) && KnownAliases(ps) && t.args !! ps.info.Keys
                         && forall l :: l in t.blocks ==> NearlyTyped(ps, ty, t.blocks[l])
    {
      ReadyTyped(Pointers(info, depth), ty, pointers, p, phis, sp, tails, t);
    }
  }

  lemma ReadyTyped(ps: Pointers, ty: Types, pointers: set<Value>, p: Program, phis: map<Value, Incoming>, sp: SizePhis, tails: Tails,
                   t: Program)
    requires Ready(ty, pointers, p, phis, sp, ps.info)
    requires var q := AddSizePhis(p, sp); TailsOk(q, tails) && PhisOld(q) && IsSplit(q, tails, t)
    ensures OriginsFit(ps, ty) && KnownAliases(ps) && t.args !! ps.info.Keys
    ensures forall l :: l in t.blocks ==> NearlyTyped(ps, ty, t.blocks[l])
  {
    var q := AddSizePhis(p, sp);
    OriginsAreFit(ps, ty, pointers, p, phis, sp);
    NoPointerArgs(ty, pointers, p);
    forall n | n in q.blocks ensures NearlyTyped(ps, ty, q.blocks[n]) {
      AddedAt(p, sp, n);
      WithSizesTyped(ps, ty, pointers, p, phis, sp, n);
    }
    forall l | l in t.blocks ensures NearlyTyped(ps, ty, t.blocks[l]) { SplitTyped(ps, ty, q, tails, t, l); }
  }

  lemma NoPointerArgs(ty: Types, pointers: set<Value>, p: Program)
    requires Raw(ty, pointers, p)
    ensures p.args !! pointers
  {
    assert InRaw(0);
  }

  /** Behind analysis and splitting, everything but the flow conditions holds: the function is typed. */
  lemma PreparedIsTyped(ps: Pointers, ty: Types, pointers: set<Value>, p: Program, tails: Tails, names: set<Value>, q: Program, t: Program)
    requires Prepares(ty, pointers, p, tails, names, ps.info, q, t) && SSA(ps, t)
    ensures Typed(ps, ty, t) && KnownAliases(ps) && ProgramOk(t) && PhisExact(t)
  {
    assert ps == Pointers(ps.info, ps.depth);
    forall l | l in t.blocks ensures BlockTyped(ps, ty, t.blocks[l]) { BlockIsTyped(ps, ty, t, l); }
  }

  /** The constructor of `CFGFunction` up to the splitting: `pointerAnalysis` and the first part of `setUpCFG`. */
  method PrepareFunction(p: Program, ghost ty: Types, pointers: set<Value>, sizeOf: map<Value, Value>, countOf: map<Value, Value>,
                         tails: Tails, noAlias: (Value, Value) -> bool, ghost rank: Rank)
    returns (info: Infos, q: Program, t: Program)
    requires Analysable(ty, pointers, p, sizeOf, countOf, rank) && ProgramOk(p) && PhisExact(p)
    requires TailsOk(p, tails) && forall l :: l in tails.Values ==> l.Orig?
    ensures Prepares(ty, pointers, p, tails, sizeOf.Values + countOf.Values, info, q, t)
    ensures AliasesResolved(PointerPhis(p, pointers, p.blocks.Keys), noAlias, info)
  {
    var phis, sizes, counts;
    info, phis, sizes, counts := AnalysePointers(p, ty, pointers, sizeOf, countOf, noAlias, rank);
    var sp := SizePhis(sizeOf, countOf, sizes, counts);
    PartsReady(ty, pointers, p, phis, sp, info, rank);
    q := AddSizePhis(p, sp);
    TailsStayOk(ty, pointers, p, phis, sp, info, tails);
    t := SplitBlocks(q, tails);
    ReadyPrepares(ty, pointers, p, phis, sp, tails, info, t);
  }

  lemma PartsReady(ty: Types, pointers: set<Value>, p: Program, phis: map<Value, Incoming>, sp: SizePhis, info: Infos, rank: Rank)
    requires Analysable(ty, pointers, p, sp.sizeOf, sp.countOf, rank) && phis == PointerPhis(p, pointers, p.blocks.Keys)
    requires Finds(ty, pointers, p, phis, sp.sizeOf, sp.countOf, info) && AllTaken(info, phis, sp.sizes, sp.counts)
    ensures Ready(ty, pointers, p, phis, sp, info)
  {
    assert InAnalysable(0);
    NamesAreFresh(ty, pointers, p, phis, sp);
  }

  /** The blocks with phis are the same with size phis. */
  lemma TailsStayOk(ty: Types, pointers: set<Value>, p: Program, phis: map<Value, Incoming>, sp: SizePhis, info: Infos, tails: Tails)
    requires Ready(ty, pointers, p, phis, sp, info) && ProgramOk(p) && PhisExact(p) && TailsOk(p, tails)
    ensures TailsOk(AddSizePhis(p, sp), tails) && PhisOld(AddSizePhis(p, sp))
  {
    var q := AddSizePhis(p, sp);
    WithSizesOk(ty, pointers, p, phis, sp, info);
    forall n | n in q.blocks ensures q.blocks[n].phis != map[] <==> p.blocks[n].phis != map[] {
      AddedAt(p, sp, n);
      SomePhis(ty, pointers, p, phis, sp, info, n);
    }
    forall n, x | n in q.blocks && x in q.blocks[n].phis ensures q.blocks[n].phis[x].Keys <= q.blocks.Keys { assert BlockOk(q, q.blocks[n]); }
  }

  lemma SomePhis(ty: Types, pointers: set<Value>, p: Program, phis: map<Value, Incoming>, sp: SizePhis, info: Infos, n: Label)
    requires Ready(ty, pointers, p, phis, sp, info) && n in p.blocks
    ensures WithSizes(p.blocks[n], sp).phis != map[] <==> p.blocks[n].phis != map[]
  {
    if x :| x in p.blocks[n].phis {
      ReadyIsFresh(ty, pointers, p, phis, sp, info);
      OwnPhi(p, phis, sp, n, x);
    } else {
      NoneWithoutPhis(p.blocks[n], sp);
    }
  }

  /** Analysis and splitting keep every run: the same blocks, memory and values, but for the size phis. */
  lemma PreparedRuns(sem: Sem, ty: Types, pointers: set<Value>, p: Program, tails: Tails, names: set<Value>, info: Infos, q: Program,
                     t: Program, s: State, k: nat) returns (j: nat)
    requires Prepares(ty, pointers, p, tails, names, info, q, t) && s.at in p.blocks && s.pred in p.blocks
    requires forall n :: n in p.blocks ==> TermTargets(p.blocks[n].term) <= p.blocks.Keys
    ensures var r := State(TailOf(tails, s.pred), s.at, s.env, s.world);
            && Shown(p.blocks.Keys, Trace(Steps(sem, t), r, j)) == Trace(Steps(sem, p), s, k)
            && BothLike((a, c) => AlikeButNames(names, tails, a, c), Run(Steps(sem, p), s, k), Run(Steps(sem, t), r, j))
  {
    var r := State(TailOf(tails, s.pred), s.at, s.env, s.world);
    MorePhisKeepRuns(sem, names, p, q, s, s, k);
    j := SplitKeepsRuns(sem, q, tails, t, s, r, k);
    BothAlike(names, tails, q, Run(Steps(sem, p), s, k), Run(Steps(sem, q), s, k), Run(Steps(sem, t), r, j));
  }

  /** In the same block with the same memory and the same values but for `names`. */
  ghost predicate AlikeButNames(names: set<Value>, tails: Tails, s: State, r: State) {
    r.at == s.at && r.pred == TailOf(tails, s.pred) && r.world == s.world && AgreeOff(names, s.env, r.env)
  }

  lemma BothAlike(names: set<Value>, tails: Tails, q: Program, s: Option<State>, c: Option<State>, r: Option<State>)
    requires BothLike((a, e) => SameOff(names, a, e), s, c) && BothLike((a, e) => AtSame(q, tails, a, e), c, r)
    ensures BothLike((a, e) => AlikeButNames(names, tails, a, e), s, r)
  {
  }
}
