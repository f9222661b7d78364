/**
  What the live sets are for: two states that agree on the live values of a block run alike
  from it.
 */
module Agreement {
  import opened IR
  import opened Runs
  import opened Pointers
  import opened Cfg
  import opened UseDef
  import opened Renaming
  import opened Transform
  import opened Function
  import opened Simulation
  import opened Rewriting
  import opened Typing

  /** On the same edge, with the same values where the edge needs them and the same memory, up to a renaming. */
  ghost predicate AgreeBy(ps: Pointers, p: Program, live: map<Label, set<CFGUse>>, rho: Rho, s: State, r: State)
    requires ps.Acyclic()
  {
    && IsEdge(p, s.pred, s.at) && s.at != p.entry && r.at == s.at && r.pred == s.pred
    && SameMemory(rho, s.world, r.world)
    && Related(rho, s.env, r.env, {}, s.at, EdgeValues(ps, p, live, s.pred, s.at))
  }

  ghost predicate Agree(ps: Pointers, p: Program, live: map<Label, set<CFGUse>>, s: State, r: State)
    requires ps.Acyclic()
  {
    exists rho :: AgreeBy(ps, p, live, rho, s, r)
  }

  lemma PhisAgree(ps: Pointers, b: Block, m: Label, any: set<Value>, l: Label, rho: Rho, env: Env, renv: Env)
    requires ps.Acyclic() && Related(rho, env, renv, {}, l, PhiNeeds(ps, b.phis, m) + any)
    requires forall x :: x in b.phis ==> m in b.phis[x]
    ensures Related(rho, RunPhis(b.phis, m, env), RunPhis(b.phis, m, renv), {}, l, any + b.phis.Keys)
  {
    forall v | v in any + b.phis.Keys
      ensures Same(rho, Get(RunPhis(b.phis, m, env), v), Get(RunPhis(b.phis, m, renv), v))
    {
      if v in b.phis {
        RunPhi(b.phis, v, m, b.phis[v][m], env);
        RunPhi(b.phis, v, m, b.phis[v][m], renv);
        if b.phis[v][m].Use? { PhiOperandNeeded(ps, b.phis, v, m); }
      } else {
        assert Same(rho, Get(env, v), Get(renv, Sub({}, l, v)));
      }
    }
  }

  lemma BranchAgrees(ps: Pointers, t: Term, l: Label, rho: Rho, env: Env, renv: Env)
    requires ps.Acyclic() && Related(rho, env, renv, {}, l, ArgNeeds(ps, t.args))
    ensures Target(t, renv) == Target(t, env)
  {
    ArgsRelated(ps, rho, env, renv, {}, l, t.args);
    SubNothing(l, []);
    ArgSame(rho, EvalAll(env, t.args), EvalAll(renv, t.args), 0);
  }

  /** The code of a block on both sides. */
  lemma CodeAgrees(sem: Sem, ps: Pointers, p: Program, live: map<Label, set<CFGUse>>, n: Label, rho: Rho,
                   env: Env, w: World, renv: Env, u: World)
    requires ps.Acyclic() && ProgramOk(p) && n in p.blocks && SameMemory(rho, w, u)
    requires Related(rho, env, renv, {}, n, BodyLive(ps, p.blocks[n].body, p.blocks[n].term, OutSet(ps, p, live, n)))
    ensures var (env', w') := RunBody(sem, p.blocks[n].body, env, w);
            var (renv', u') := RunBody(sem, p.blocks[n].body, renv, u);
            var next := Target(p.blocks[n].term, env');
            && Target(p.blocks[n].term, renv') == next
            && (next.Some? ==> Agree(ps, p, live, State(n, next.value, env', w'), State(n, next.value, renv', u')))
  {
    var b := p.blocks[n];
    assert BlockOk(p, b);
    SubNothing(n, b.body);
    var more := BodySim(sem, ps, b.body, b.term, OutSet(ps, p, live, n), {}, n, rho, env, w, renv, u);
    var (env', w') := RunBody(sem, b.body, env, w);
    var (renv', u') := RunBody(sem, b.body, renv, u);
    BranchAgrees(ps, b.term, n, more, env', renv');
    TargetIsSuccessor(b.term, env');
    var next := Target(b.term, env');
    if next.Some? {
      EdgeValuesOut(ps, p, live, n, next.value);
      assert AgreeBy(ps, p, live, more, State(n, next.value, env', w'), State(n, next.value, renv', u'));
    }
  }

  lemma EdgeAgrees(ps: Pointers, p: Program, live: map<Label, set<CFGUse>>, rho: Rho, s: State, r: State)
    requires SSA(ps, p) && ProgramOk(p) && LiveOk(ps, p, live) && AgreeBy(ps, p, live, rho, s, r)
    ensures var b := p.blocks[s.at];
            Related(rho, RunPhis(b.phis, s.pred, s.env), RunPhis(b.phis, s.pred, r.env), {}, s.at,
                    BodyLive(ps, b.body, b.term, OutSet(ps, p, live, s.at)))
  {
    LiveOfBlock(ps, p, live, s.at);
    PhisAgree(ps, p.blocks[s.at], s.pred, AnyAt(live, s.at), s.at, rho, s.env, r.env);
  }

  lemma StepAgreesBy(sem: Sem, ps: Pointers, p: Program, live: map<Label, set<CFGUse>>, rho: Rho, s: State, r: State)
    requires ps.Acyclic() && ProgramOk(p) && s.at in p.blocks && s.pred == r.pred && s.at == r.at && SameMemory(rho, s.world, r.world)
    requires var b := p.blocks[s.at];
             Related(rho, RunPhis(b.phis, s.pred, s.env), RunPhis(b.phis, s.pred, r.env), {}, s.at,
                     BodyLive(ps, b.body, b.term, OutSet(ps, p, live, s.at)))
    ensures BothLike((a, c) => Agree(ps, p, live, a, c), Step(sem, p, s), Step(sem, p, r))
  {
    var n, b := s.at, p.blocks[s.at];
    CodeAgrees(sem, ps, p, live, n, rho, RunPhis(b.phis, s.pred, s.env), s.world, RunPhis(b.phis, s.pred, r.env), r.world);
  }

  lemma StepAgrees(sem: Sem, ps: Pointers, p: Program, live: map<Label, set<CFGUse>>, s: State, r: State)
    requires SSA(ps, p) && ProgramOk(p) && LiveOk(ps, p, live) && Agree(ps, p, live, s, r)
    ensures BothLike((a, c) => Agree(ps, p, live, a, c), Step(sem, p, s), Step(sem, p, r))
  {
    var rho :| AgreeBy(ps, p, live, rho, s, r);
    EdgeAgrees(ps, p, live, rho, s, r);
    StepAgreesBy(sem, ps, p, live, rho, s, r);
  }

  /** The values live on an edge, and the memory, decide the whole run behind it. */
  lemma LiveValuesDecide(sem: Sem, ps: Pointers, p: Program, live: map<Label, set<CFGUse>>, s: State, r: State, k: nat)
    requires SSA(ps, p) && ProgramOk(p) && LiveOk(ps, p, live) && Agree(ps, p, live, s, r)
    ensures Trace(Steps(sem, p), r, k) == Trace(Steps(sem, p), s, k)
    ensures BothLike((a, c) => Agree(ps, p, live, a, c), Run(Steps(sem, p), s, k), Run(Steps(sem, p), r, k))
  {
    ghost var like: Likeness := (a, c) => Agree(ps, p, live, a, c);
    forall a, c | Compare(a, c) && like(a, c)
      ensures a.at == c.at && BothLike(like, Steps(sem, p)(a), Steps(sem, p)(c))
    {
      StepAgrees(sem, ps, p, live, a, c);
    }
    RunsAlike(Steps(sem, p), Steps(sem, p), like, s, r, k);
  }
}
