/**
  The transformed function does what the function did: block for block it takes the same
  branches, and at every block each live value is found under the name the pass gave it.
 */
module Simulation {
  import opened Records
  import opened IR
  import opened Pointers
  import opened UseDef
  import opened Transform
  import opened Function
  import opened Renaming
  import opened Runs

  // ----- straight-line code -----

  /** What is live before a piece of code, when `out` is live behind it. */
  function BodyLive(ps: Pointers, body: seq<Instr>, term: Term, out: set<Value>): set<Value>
    requires ps.Acyclic()
  {
    if body == [] then ArgNeeds(ps, term.args) + out
    else ArgNeeds(ps, body[0].args) + (BodyLive(ps, body[1..], term, out) - DstSet(body[0]))
  }

  lemma {:induction false} BodyLiveSplit(ps: Pointers, body: seq<Instr>, term: Term, out: set<Value>)
    requires ps.Acyclic()
    ensures BodyLive(ps, body, term, out) == BodyNeeds(ps, body, term) + (out - Dsts(body))
  {
    if body == [] {
      assert Dsts(body) == {};
    } else {
      BodyLiveSplit(ps, body[1..], term, out);
      assert body == [body[0]] + body[1..];
      DstsCons(body[0], body[1..]);
    }
  }

  lemma {:induction false} OperandsNeeded(ps: Pointers, os: seq<Operand>, i: nat)
    requires ps.Acyclic() && i < |os| && os[i].Use?
    ensures os[i].v in ArgNeeds(ps, os)
  {
    if i > 0 { OperandsNeeded(ps, os[1..], i - 1); }
  }

  /** Each value of `vs` has the same meaning in `env` and, under its new name, in `renv`. */
  ghost predicate Related(rho: Rho, env: Env, renv: Env, any: set<Value>, l: Label, vs: set<Value>) {
    forall v :: v in vs ==> Same(rho, Get(env, v), Get(renv, Sub(any, l, v)))
  }

  lemma ArgsRelated(ps: Pointers, rho: Rho, env: Env, renv: Env, any: set<Value>, l: Label, os: seq<Operand>)
    requires ps.Acyclic() && Related(rho, env, renv, any, l, ArgNeeds(ps, os))
    ensures SameAll(rho, EvalAll(env, os), EvalAll(renv, SubArgs(any, l, os)))
  {
    forall i | 0 <= i < |os|
      ensures Same(rho, Eval(env, os[i]), Eval(renv, SubArgs(any, l, os)[i]))
    {
      if os[i].Use? { OperandsNeeded(ps, os, i); }
    }
  }

  lemma StaysRelated(rho: Rho, more: Rho, env: Env, renv: Env, any: set<Value>, l: Label, vs: set<Value>)
    requires Related(rho, env, renv, any, l, vs) && Extends(rho, more)
    ensures Related(more, env, renv, any, l, vs)
  {
    forall v | v in vs ensures Same(more, Get(env, v), Get(renv, Sub(any, l, v))) {
      assert Same(rho, Get(env, v), Get(renv, Sub(any, l, v)));
    }
  }

  lemma InstrSim(sem: Sem, ps: Pointers, i: Instr, after: set<Value>, any: set<Value>, l: Label,
                 rho: Rho, env: Env, w: World, renv: Env, u: World) returns (more: Rho)
    requires ps.Acyclic() && !i.op.CallsRuntime()
    requires i.dst.Some? ==> i.dst.value.Src? && i.dst.value !in any
    requires Related(rho, env, renv, any, l, ArgNeeds(ps, i.args) + (after - DstSet(i))) && SameMemory(rho, w, u)
    ensures var (env', w') := RunInstr(sem, i, env, w);
            var (renv', u') := RunInstr(sem, SubInstr(any, l, i), renv, u);
            Extends(rho, more) && Related(more, env', renv', any, l, after) && SameMemory(more, w', u')
  {
    var ds, es := EvalAll(env, i.args), EvalAll(renv, SubArgs(any, l, i.args));
    ArgsRelated(ps, rho, env, renv, any, l, i.args);
    ExecSame(sem, rho, i.op, ds, es, w, u);
    AfterExtends(rho, i.op, w, u);
    more := After(rho, i.op, w, u);
    StaysRelated(rho, more, env, renv, any, l, after - DstSet(i));
  }

  lemma {:induction false} BodySim(sem: Sem, ps: Pointers, body: seq<Instr>, term: Term, out: set<Value>, any: set<Value>,
                                   l: Label, rho: Rho, env: Env, w: World, renv: Env, u: World) returns (more: Rho)
    requires ps.Acyclic()
    requires forall i :: i in body ==> !i.op.CallsRuntime()
    requires Sources(Dsts(body)) && Dsts(body) !! any
    requires Related(rho, env, renv, any, l, BodyLive(ps, body, term, out)) && SameMemory(rho, w, u)
    ensures var (env', w') := RunBody(sem, body, env, w);
            var (renv', u') := RunBody(sem, SubBody(any, l, body), renv, u);
            && Extends(rho, more) && SameMemory(more, w', u')
            && Related(more, env', renv', any, l, ArgNeeds(ps, term.args) + out)
    decreases |body|
  {
    if body == [] {
      more := rho;
    } else {
      var i, rest := body[0], body[1..];
      assert body == [i] + rest;
      DstsCons(i, rest);
      assert i in body && forall j :: j in rest ==> j in body;
      assert i.dst.Some? ==> i.dst.value in Dsts(body);
      var first := InstrSim(sem, ps, i, BodyLive(ps, rest, term, out), any, l, rho, env, w, renv, u);
      var (env1, w1) := RunInstr(sem, i, env, w);
      var (renv1, u1) := RunInstr(sem, SubInstr(any, l, i), renv, u);
      more := BodySim(sem, ps, rest, term, out, any, l, first, env1, w1, renv1, u1);
      assert SubBody(any, l, body)[1..] == SubBody(any, l, rest);
    }
  }

  lemma {:induction false} ChooseRedirected(headers: seq<Label>, cases: seq<(nat, Label)>, default: Label, key: nat)
    ensures Choose(RedirectCases(headers, cases), Redirect(headers, default), key)
            == Redirect(headers, Choose(cases, default, key))
  {
    if cases != [] {
      assert RedirectCases(headers, cases)[1..] == RedirectCases(headers, cases[1..]);
      ChooseRedirected(headers, cases[1..], default, key);
    }
  }

  /** The same branch, with control sent to the checkpoint block of a checkpointed target. */
  lemma SameBranch(ps: Pointers, headers: seq<Label>, t: Term, rho: Rho, env: Env, renv: Env, any: set<Value>, l: Label)
    requires ps.Acyclic() && Related(rho, env, renv, any, l, ArgNeeds(ps, t.args))
    ensures var next := Target(t, env);
            Target(SubTerm(any, l, RedirectTerm(headers, t)), renv) ==
            if next.None? then None else Some(Redirect(headers, next.value))
  {
    ArgsRelated(ps, rho, env, renv, any, l, t.args);
    var ds, es := EvalAll(env, t.args), EvalAll(renv, SubArgs(any, l, t.args));
    ArgSame(rho, ds, es, 0);
    if t.default.Some? {
      ChooseRedirected(headers, t.cases, t.default.value, IntOf(Arg(ds, 0)));
    }
  }

  // ----- the shape of the result -----

  /**
    For each block the values live into it and behind it, and the name a value has at the end of a block of the
    transformed function.
   */
  datatype View = View(any: map<Label, set<Value>>, out: map<Label, set<Value>>, name: (Label, Value) -> Value) {
    function Any(n: Label): set<Value> { if n in any then any[n] else {} }

    function Out(n: Label): set<Value> { if n in out then out[n] else {} }
  }

  /** The block that stands for predecessor `m` of `n` in the result. */
  predicate StandsFor(p: Program, headers: seq<Label>, m: Label, n: Label, pred: Label) {
    if n in headers then pred == CheckpointOf(n) || pred == RestartOf(n) else pred == Renamed(p.entry, m)
  }

  predicate IsEdge(p: Program, m: Label, n: Label) {
    m in p.blocks && n in p.blocks && n in TermTargets(p.blocks[m].term)
  }

  /** What has to be known when control takes an edge. */
  function EdgeSet(ps: Pointers, p: Program, view: View, m: Label, n: Label): set<Value>
    requires ps.Acyclic() && n in p.blocks
  {
    PhiNeeds(ps, p.blocks[n].phis, m) + view.Any(n)
  }

  /** An operand of a phi, under the name it has at the end of the predecessor. */
  function Through(view: View, pred: Label, o: Operand): Operand {
    if o.Use? then Use(view.name(pred, o.v)) else o
  }

  predicate ReadsFrom(phis: map<Value, Incoming>, x: Value, pred: Label, o: Operand) {
    x in phis && pred in phis[x] && phis[x][pred] == o
  }

  /** The phis of a block read the same values under their new names. */
  ghost predicate OldPhis(phis: map<Value, Incoming>, fixed: map<Value, Incoming>, view: View, m: Label, pred: Label) {
    forall x :: x in phis ==> m in phis[x] && ReadsFrom(fixed, x, pred, Through(view, pred, phis[x][m]))
  }

  /** A phi for each live value. */
  ghost predicate LivePhisRead(fixed: map<Value, Incoming>, view: View, n: Label, pred: Label) {
    forall v :: v in view.Any(n) ==> ReadsFrom(fixed, LivePhi(v, n), pred, Use(view.name(pred, v)))
  }

  /** The phis of a block and of its counterpart, on one edge. */
  ghost predicate PhiShape(p: Program, t: Program, view: View, m: Label, n: Label, pred: Label) {
    && n in t.blocks && IsEdge(p, m, n)
    && OldPhis(p.blocks[n].phis, t.blocks[n].phis, view, m, pred)
    && LivePhisRead(t.blocks[n].phis, view, n, pred)
  }

  /** Everything behind the phis of a block. */
  ghost predicate BodyShape(ps: Pointers, p: Program, headers: seq<Label>, t: Program, view: View, n: Label)
    requires ps.Acyclic()
  {
    && n in p.blocks && n in t.blocks
    && var b := p.blocks[n];
       var any := view.Any(n);
       && t.blocks[n].body == SubBody(any, n, b.body)
       && t.blocks[n].term == SubTerm(any, n, RedirectTerm(headers, b.term))
       && Dsts(b.body) !! any && b.phis.Keys !! any
       && BodyLive(ps, b.body, b.term, view.Out(n)) <= any + b.phis.Keys
       && forall v :: v in view.Out(n) ==> view.name(n, v) == Sub(any, n, v)
  }

  /** What an edge needs is live behind its block. */
  ghost predicate OutShape(ps: Pointers, p: Program, view: View)
    requires ps.Acyclic()
  {
    forall m, n :: IsEdge(p, m, n) ==> EdgeSet(ps, p, view, m, n) <= view.Out(m)
  }

  /** The entry block asks where to start; its code has moved. */
  ghost predicate EntryBlocks(p: Program, headers: seq<Label>, t: Program) {
    && p.entry in p.blocks && p.entry in t.blocks && NoCREntry in t.blocks
    && t.entry == p.entry
    && t.blocks[p.entry] == DispatchBlock(headers)
    && var b := p.blocks[p.entry];
       t.blocks[NoCREntry] == Block(map[], SubBody({}, NoCREntry, b.body), SubTerm({}, NoCREntry, RedirectTerm(headers, b.term)))
  }

  /** The moved code needs nothing but arguments, and keeps the names of its values. */
  ghost predicate EntryNames(ps: Pointers, p: Program, view: View)
    requires ps.Acyclic() && p.entry in p.blocks
  {
    && BodyLive(ps, p.blocks[p.entry].body, p.blocks[p.entry].term, view.Out(p.entry)) <= p.args
    && forall v :: v in view.Out(p.entry) ==> view.name(NoCREntry, v) == v
  }

  ghost predicate EntryShape(ps: Pointers, p: Program, headers: seq<Label>, t: Program, view: View)
    requires ps.Acyclic()
  {
    EntryBlocks(p, headers, t) && EntryNames(ps, p, view)
  }

  /** A checkpoint block saves, and goes on to its block. */
  ghost predicate CheckpointCode(t: Program, any: set<Value>, h: Label) {
    && CheckpointOf(h) in t.blocks
    && var c := t.blocks[CheckpointOf(h)];
       c.term == SubTerm(any, CheckpointOf(h), Jump(h)) && forall i :: i in c.body ==> i.dst.None? && IsSave(i.op)
  }

  /** It has a phi for each live value. */
  ghost predicate CheckpointNames(p: Program, t: Program, view: View, h: Label)
    requires CheckpointOf(h) in t.blocks
  {
    && (forall m, v :: IsEdge(p, m, h) && v in view.Any(h) ==>
          ReadsFrom(t.blocks[CheckpointOf(h)].phis, LivePhi(v, CheckpointOf(h)), Renamed(p.entry, m),
                    Use(view.name(Renamed(p.entry, m), v))))
    && forall v :: v in view.Any(h) ==> view.name(CheckpointOf(h), v) == LivePhi(v, CheckpointOf(h))
  }

  ghost predicate CheckpointShape(p: Program, t: Program, view: View, h: Label) {
    CheckpointCode(t, view.Any(h), h) && CheckpointNames(p, t, view, h)
  }

  ghost predicate Shape(ps: Pointers, p: Program, headers: seq<Label>, t: Program, view: View)
    requires ps.Acyclic()
  {
    forall k {:trigger InShape(k)} :: InShape(k) ==>
      && ProgramOk(p)
      && (forall n :: n in p.blocks && n != p.entry ==> BodyShape(ps, p, headers, t, view, n))
      && (forall m, n, pred :: IsEdge(p, m, n) && StandsFor(p, headers, m, n, pred) ==> PhiShape(p, t, view, m, n, pred))
      && OutShape(ps, p, view)
      && EntryShape(ps, p, headers, t, view)
      && (forall h :: h in headers ==> h in p.blocks && h != p.entry && p.blocks[h].phis == map[] && CheckpointShape(p, t, view, h))
  }

  /** Marks where a proof looks inside `Shape`. */
  ghost predicate InShape(k: nat) { true }

  // ----- one edge -----

  /** Before an edge is taken: each value it needs is found under the name of its predecessor. */
  ghost predicate EdgeRelated(rho: Rho, env: Env, renv: Env, view: View, pred: Label, vs: set<Value>) {
    forall v :: v in vs ==> Same(rho, Get(env, v), Get(renv, view.name(pred, v)))
  }

  lemma RunPhi(phis: map<Value, Incoming>, x: Value, pred: Label, o: Operand, env: Env)
    requires ReadsFrom(phis, x, pred, o)
    ensures Get(RunPhis(phis, pred, env), x) == Eval(env, o)
  {
  }

  lemma PhiOperandNeeded(ps: Pointers, phis: map<Value, Incoming>, x: Value, m: Label)
    requires ps.Acyclic() && x in phis && m in phis[x] && phis[x][m].Use?
    ensures phis[x][m].v in PhiNeeds(ps, phis, m)
  {
    assert phis[x][m].v in OperandNeeds(ps, phis[x][m]);
  }

  /** Taking an edge runs the phis of both functions in step. */
  lemma PhisSim(ps: Pointers, p: Program, headers: seq<Label>, t: Program, view: View, rho: Rho,
                env: Env, renv: Env, m: Label, n: Label, pred: Label)
    requires ps.Acyclic() && PhiShape(p, t, view, m, n, pred) && BodyShape(ps, p, headers, t, view, n)
    requires EdgeRelated(rho, env, renv, view, pred, EdgeSet(ps, p, view, m, n))
    ensures var b := p.blocks[n];
            Related(rho, RunPhis(b.phis, m, env), RunPhis(t.blocks[n].phis, pred, renv), view.Any(n), n,
                    BodyLive(ps, b.body, b.term, view.Out(n)))
  {
    var b := p.blocks[n];
    forall v | v in BodyLive(ps, b.body, b.term, view.Out(n))
      ensures Same(rho, Get(RunPhis(b.phis, m, env), v),
                   Get(RunPhis(t.blocks[n].phis, pred, renv), Sub(view.Any(n), n, v)))
    {
      if v in view.Any(n) {
        RunPhi(t.blocks[n].phis, LivePhi(v, n), pred, Use(view.name(pred, v)), renv);
      } else {
        var o := b.phis[v][m];
        RunPhi(b.phis, v, m, o, env);
        RunPhi(t.blocks[n].phis, v, pred, Through(view, pred, o), renv);
        if o.Use? { PhiOperandNeeded(ps, b.phis, v, m); }
      }
    }
  }

  // ----- runs -----

  /** The two functions are about to enter the same block of the function, with the same live values. */
  ghost predicate Matches(ps: Pointers, p: Program, headers: seq<Label>, view: View, rho: Rho, s: State, r: State)
    requires ps.Acyclic()
  {
    && IsEdge(p, s.pred, s.at) && s.at != p.entry && r.at == s.at
    && StandsFor(p, headers, s.pred, s.at, r.pred)
    && SameMemory(rho, s.world, r.world)
    && EdgeRelated(rho, s.env, r.env, view, r.pred, EdgeSet(ps, p, view, s.pred, s.at))
  }

  /** The transformed function is about to enter the checkpoint block of the block the function enters. */
  ghost predicate AtCheckpoint(ps: Pointers, p: Program, headers: seq<Label>, view: View, rho: Rho, s: State, r: State)
    requires ps.Acyclic()
  {
    && IsEdge(p, s.pred, s.at) && s.at != p.entry && s.at in headers
    && r.at == CheckpointOf(s.at) && r.pred == Renamed(p.entry, s.pred)
    && SameMemory(rho, s.world, r.world)
    && EdgeRelated(rho, s.env, r.env, view, r.pred, EdgeSet(ps, p, view, s.pred, s.at))
  }

  /** What the two functions do next, one block each: both return, or both go on, to the same block. */
  ghost predicate InStep(ps: Pointers, p: Program, headers: seq<Label>, view: View, rho: Rho,
                         s: Option<State>, r: Option<State>)
    requires ps.Acyclic()
  {
    if s.None? || r.None? then s.None? && r.None?
    else if s.value.at in headers then AtCheckpoint(ps, p, headers, view, rho, s.value, r.value)
    else Matches(ps, p, headers, view, rho, s.value, r.value)
  }

  /** The code of a block and its branch, once the phis are done. */
  lemma CodeSim(sem: Sem, ps: Pointers, p: Program, headers: seq<Label>, view: View, n: Label, any: set<Value>, l: Label,
                body: seq<Instr>, term: Term, rho: Rho, env: Env, w: World, renv: Env, u: World)
    returns (more: Rho)
    requires ps.Acyclic() && ProgramOk(p) && n in p.blocks && OutShape(ps, p, view)
    requires body == SubBody(any, l, p.blocks[n].body)
    requires term == SubTerm(any, l, RedirectTerm(headers, p.blocks[n].term))
    requires Dsts(p.blocks[n].body) !! any && l == Renamed(p.entry, n)
    requires forall v :: v in view.Out(n) ==> view.name(l, v) == Sub(any, l, v)
    requires Related(rho, env, renv, any, l, BodyLive(ps, p.blocks[n].body, p.blocks[n].term, view.Out(n)))
    requires SameMemory(rho, w, u)
    ensures Extends(rho, more)
    ensures var (env1, w1) := RunBody(sem, p.blocks[n].body, env, w);
            var (renv1, u1) := RunBody(sem, body, renv, u);
            var next := Target(p.blocks[n].term, env1);
            var rnext := Target(term, renv1);
            InStep(ps, p, headers, view, more,
                   if next.None? then None else Some(State(n, next.value, env1, w1)),
                   if rnext.None? then None else Some(State(l, rnext.value, renv1, u1)))
  {
    var b := p.blocks[n];
    more := BodySim(sem, ps, b.body, b.term, view.Out(n), any, l, rho, env, w, renv, u);
    var (env1, w1) := RunBody(sem, b.body, env, w);
    var (renv1, u1) := RunBody(sem, body, renv, u);
    SameBranch(ps, headers, b.term, more, env1, renv1, any, l);
    TargetIsSuccessor(b.term, env1);
    var next := Target(b.term, env1);
    if next.Some? {
      assert IsEdge(p, n, next.value);
      assert EdgeRelated(more, env1, renv1, view, l, EdgeSet(ps, p, view, n, next.value));
    }
  }

  /** One block of the function is one block of the transformed function. */
  lemma StepSim(sem: Sem, ps: Pointers, p: Program, headers: seq<Label>, t: Program, view: View, rho: Rho, s: State, r: State)
    returns (more: Rho)
    requires ps.Acyclic() && Shape(ps, p, headers, t, view) && Matches(ps, p, headers, view, rho, s, r)
    ensures Extends(rho, more) && InStep(ps, p, headers, view, more, Step(sem, p, s), Step(sem, t, r))
  {
    assert InShape(0);
    var n := s.at;
    var b := p.blocks[n];
    PhisSim(ps, p, headers, t, view, rho, s.env, r.env, s.pred, n, r.pred);
    more := CodeSim(sem, ps, p, headers, view, n, view.Any(n), n, t.blocks[n].body, t.blocks[n].term, rho,
                    RunPhis(b.phis, s.pred, s.env), s.world, RunPhis(t.blocks[n].phis, r.pred, r.env), r.world);
  }

  /** Both blocks return, with the same values and memory up to a renaming, or neither does. */
  ghost predicate ReturnsAlike(rho: Rho, e: Option<Exit>, x: Option<Exit>) {
    if e.None? || x.None? then e.None? && x.None?
    else SameMemory(rho, e.value.world, x.value.world) && SameAll(rho, e.value.values, x.value.values)
  }

  /** The code of a block as far as a return, once the phis are done. */
  lemma CodeReturns(sem: Sem, ps: Pointers, p: Program, headers: seq<Label>, view: View, n: Label, any: set<Value>, l: Label,
                    body: seq<Instr>, term: Term, rho: Rho, env: Env, w: World, renv: Env, u: World)
    returns (more: Rho)
    requires ps.Acyclic() && ProgramOk(p) && n in p.blocks
    requires body == SubBody(any, l, p.blocks[n].body)
    requires term == SubTerm(any, l, RedirectTerm(headers, p.blocks[n].term))
    requires Dsts(p.blocks[n].body) !! any
    requires Related(rho, env, renv, any, l, BodyLive(ps, p.blocks[n].body, p.blocks[n].term, view.Out(n)))
    requires SameMemory(rho, w, u)
    ensures Extends(rho, more)
    ensures var (env1, w1) := RunBody(sem, p.blocks[n].body, env, w);
            var (renv1, u1) := RunBody(sem, body, renv, u);
            ReturnsAlike(more, ExitOf(p.blocks[n].term, env1, w1), ExitOf(term, renv1, u1))
  {
    var b := p.blocks[n];
    more := BodySim(sem, ps, b.body, b.term, view.Out(n), any, l, rho, env, w, renv, u);
    var (env1, w1) := RunBody(sem, b.body, env, w);
    var (renv1, u1) := RunBody(sem, body, renv, u);
    ArgsRelated(ps, more, env1, renv1, any, l, b.term.args);
  }

  /** A block that returns returns the same in the transformed function. */
  lemma ReturnSim(sem: Sem, ps: Pointers, p: Program, headers: seq<Label>, t: Program, view: View, rho: Rho, s: State, r: State)
    returns (more: Rho)
    requires ps.Acyclic() && Shape(ps, p, headers, t, view) && Matches(ps, p, headers, view, rho, s, r)
    ensures Extends(rho, more) && ReturnsAlike(more, Returned(sem, p, s), Returned(sem, t, r))
  {
    assert InShape(0);
    var n := s.at;
    var b := p.blocks[n];
    PhisSim(ps, p, headers, t, view, rho, s.env, r.env, s.pred, n, r.pred);
    more := CodeReturns(sem, ps, p, headers, view, n, view.Any(n), n, t.blocks[n].body, t.blocks[n].term, rho,
                        RunPhis(b.phis, s.pred, s.env), s.world, RunPhis(t.blocks[n].phis, r.pred, r.env), r.world);
  }

  lemma {:induction false} SavesKeep(sem: Sem, body: seq<Instr>, env: Env, w: World)
    requires forall i :: i in body ==> i.dst.None? && IsSave(i.op)
    ensures var (env', w') := RunBody(sem, body, env, w);
            env' == env && w'.cells == w.cells && w'.next == w.next
    decreases |body|
  {
    if body != [] {
      assert body[0] in body && forall i :: i in body[1..] ==> i in body;
      SaveKeeps(sem, body[0], env, w);
      SavesKeep(sem, body[1..], env, RunInstr(sem, body[0], env, w).1);
    }
  }

  lemma SaveKeeps(sem: Sem, i: Instr, env: Env, w: World)
    requires i.dst.None? && IsSave(i.op)
    ensures var (env', w') := RunInstr(sem, i, env, w);
            env' == env && w'.cells == w.cells && w'.next == w.next
  {
  }

  lemma CheckpointPhis(ps: Pointers, p: Program, t: Program, view: View, rho: Rho, env: Env, renv: Env, m: Label, h: Label)
    requires ps.Acyclic() && IsEdge(p, m, h) && p.blocks[h].phis == map[] && CheckpointShape(p, t, view, h)
    requires EdgeRelated(rho, env, renv, view, Renamed(p.entry, m), EdgeSet(ps, p, view, m, h))
    ensures var c := t.blocks[CheckpointOf(h)];
            EdgeRelated(rho, env, RunPhis(c.phis, Renamed(p.entry, m), renv), view, CheckpointOf(h), EdgeSet(ps, p, view, m, h))
  {
    var c := t.blocks[CheckpointOf(h)];
    var pred := Renamed(p.entry, m);
    assert PhiNeeds(ps, p.blocks[h].phis, m) == {};
    forall v | v in EdgeSet(ps, p, view, m, h)
      ensures Same(rho, Get(env, v), Get(RunPhis(c.phis, pred, renv), view.name(CheckpointOf(h), v)))
    {
      RunPhi(c.phis, LivePhi(v, CheckpointOf(h)), pred, Use(view.name(pred, v)), renv);
    }
  }

  /** A checkpoint block changes nothing the function can see, and hands over to its block. */
  lemma CheckpointSim(sem: Sem, ps: Pointers, p: Program, headers: seq<Label>, t: Program, view: View, rho: Rho, s: State, r: State)
    requires ps.Acyclic() && Shape(ps, p, headers, t, view) && AtCheckpoint(ps, p, headers, view, rho, s, r)
    ensures var next := Step(sem, t, r);
            next.Some? && next.value.pred == CheckpointOf(s.at) && Matches(ps, p, headers, view, rho, s, next.value)
  {
    assert InShape(0);
    assert CheckpointShape(p, t, view, s.at);
    CheckpointBlockSim(sem, ps, p, headers, t, view, rho, s, r);
  }

  lemma CheckpointBlockSim(sem: Sem, ps: Pointers, p: Program, headers: seq<Label>, t: Program, view: View, rho: Rho,
                           s: State, r: State)
    requires ps.Acyclic() && AtCheckpoint(ps, p, headers, view, rho, s, r)
    requires p.blocks[s.at].phis == map[] && CheckpointShape(p, t, view, s.at)
    ensures var next := Step(sem, t, r);
            next.Some? && next.value.pred == CheckpointOf(s.at) && Matches(ps, p, headers, view, rho, s, next.value)
  {
    CheckpointPhis(ps, p, t, view, rho, s.env, r.env, s.pred, s.at);
    var c := t.blocks[CheckpointOf(s.at)];
    SavesKeep(sem, c.body, RunPhis(c.phis, r.pred, r.env), r.world);
  }

  /** A relation between states of the two functions, for each renaming. */
  type Relation = (Rho, State, State) -> bool

  ghost predicate StepsTogether(headers: seq<Label>, matches: Relation, waiting: Relation, rho: Rho, s: Option<State>, r: Option<State>) {
    if s.None? || r.None? then s.None? && r.None?
    else if s.value.at in headers then waiting(rho, s.value, r.value)
    else matches(rho, s.value, r.value)
  }

  /** Marks the states a proof looks at. */
  ghost predicate Consider(rho: Rho, s: State, r: State) { true }

  /** `g` does what `f` does, with a block of its own in front of some of the blocks. */
  ghost predicate Simulates(f: Stepper, g: Stepper, headers: seq<Label>, matches: Relation, waiting: Relation) {
    && (forall rho, s, r {:trigger Consider(rho, s, r)} :: Consider(rho, s, r) && matches(rho, s, r) ==>
          r.at == s.at && s.at.Orig? &&
          exists more :: Extends(rho, more) && StepsTogether(headers, matches, waiting, more, f(s), g(r)))
    && (forall rho, s, r {:trigger Consider(rho, s, r)} :: Consider(rho, s, r) && waiting(rho, s, r) ==> r.at.Checkpoint? && g(r).Some? && matches(rho, s, g(r).value))
  }

  ghost predicate EndTogether(matches: Relation, rho: Rho, s: Option<State>, r: Option<State>) {
    if s.None? then r.None? else r.Some? && matches(rho, s.value, r.value)
  }

  lemma FirstStep(f: Stepper, g: Stepper, headers: seq<Label>, matches: Relation, waiting: Relation, rho: Rho, s: State, r: State)
    returns (first: Rho)
    requires Simulates(f, g, headers, matches, waiting) && matches(rho, s, r)
    ensures r.at == s.at && s.at.Orig? && Extends(rho, first)
    ensures StepsTogether(headers, matches, waiting, first, f(s), g(r))
  {
    assert Consider(rho, s, r);
    first :| Extends(rho, first) && StepsTogether(headers, matches, waiting, first, f(s), g(r));
  }

  /**
    From matching states, every run of the function is a run of the transformed function through the same blocks,
    which ends when it ends and otherwise matches again.
   */
  lemma {:induction false} RunSim(f: Stepper, g: Stepper, headers: seq<Label>, matches: Relation, waiting: Relation,
                                  rho: Rho, s: State, r: State, k: nat)
    returns (j: nat, more: Rho)
    requires Simulates(f, g, headers, matches, waiting) && matches(rho, s, r)
    ensures Extends(rho, more) && k <= j
    ensures Visible(g, r, j) == Trace(f, s, k)
    ensures EndTogether(matches, more, Run(f, s, k), Run(g, r, j))
    decreases k, 0
  {
    if k == 0 {
      j, more := 0, rho;
    } else {
      var first := FirstStep(f, g, headers, matches, waiting, rho, s, r);
      if f(s).None? {
        j, more := k, first;
        SameBlockLast(f, g, s, r, k);
      } else {
        var i;
        i, more := RunBehind(f, g, headers, matches, waiting, first, f(s).value, g(r).value, k - 1);
        j := i + 1;
        ExtendsTwice(rho, first, more);
        SameBlockFirst(f, g, s, r, k - 1, i);
      }
    }
  }

  /** The same, when a checkpoint block may come first. */
  lemma {:induction false} RunBehind(f: Stepper, g: Stepper, headers: seq<Label>, matches: Relation, waiting: Relation,
                                     rho: Rho, s: State, r: State, k: nat)
    returns (j: nat, more: Rho)
    requires Simulates(f, g, headers, matches, waiting)
    requires StepsTogether(headers, matches, waiting, rho, Some(s), Some(r))
    ensures Extends(rho, more) && k <= j
    ensures Visible(g, r, j) == Trace(f, s, k)
    ensures EndTogether(matches, more, Run(f, s, k), Run(g, r, j))
    decreases k, 1
  {
    if s.at in headers {
      assert Consider(rho, s, r);
      var i;
      i, more := RunSim(f, g, headers, matches, waiting, rho, s, g(r).value, k);
      j := i + 1;
      RunHides(g, r, i);
    } else {
      j, more := RunSim(f, g, headers, matches, waiting, rho, s, r, k);
    }
  }

  /** From the entry blocks, when `g` has one more block in front of the first. */
  lemma RunFromEntry(f: Stepper, g: Stepper, headers: seq<Label>, matches: Relation, waiting: Relation, rho: Rho,
                     s: State, r: State, k: nat) returns (j: nat, more: Rho)
    requires Simulates(f, g, headers, matches, waiting) && k > 0
    requires s.at.Orig? && r.at == s.at && g(r).Some? && !g(r).value.at.Orig?
    requires StepsTogether(headers, matches, waiting, rho, f(s), g(g(r).value))
    ensures Extends(rho, more) && k <= j
    ensures Visible(g, r, j) == Trace(f, s, k)
    ensures EndTogether(matches, more, Run(f, s, k), Run(g, r, j))
  {
    var r1 := g(r).value;
    more := rho;
    if f(s).None? {
      RunEnds(f, s, k);
      RunEnds(g, r1, k);
      RunShows(g, r, k);
      j := k + 1;
    } else {
      var i;
      i, more := RunBehind(f, g, headers, matches, waiting, rho, f(s).value, g(r1).value, k - 1);
      j := i + 2;
      RunHides(g, r1, i);
      SameBlockFirst(f, g, s, r, k - 1, i + 1);
    }
  }

  /** When `f` comes to one of the blocks, `g` comes to the block in front of it. */
  lemma {:induction false} RunToWaiting(f: Stepper, g: Stepper, headers: seq<Label>, matches: Relation, waiting: Relation,
                                        rho: Rho, s: State, r: State, k: nat)
    returns (j: nat, more: Rho)
    requires Simulates(f, g, headers, matches, waiting)
    requires StepsTogether(headers, matches, waiting, rho, Some(s), Some(r))
    requires Run(f, s, k).Some? && Run(f, s, k).value.at in headers
    ensures Run(g, r, j).Some? && waiting(more, Run(f, s, k).value, Run(g, r, j).value)
    decreases k
  {
    if k == 0 {
      j, more := 0, rho;
    } else {
      var r1, skip := r, 0;
      if s.at in headers {
        assert Consider(rho, s, r);
        r1, skip := g(r).value, 1;
      }
      assert Consider(rho, s, r1) && matches(rho, s, r1);
      var first :| Extends(rho, first) && StepsTogether(headers, matches, waiting, first, f(s), g(r1));
      j, more := RunToWaiting(f, g, headers, matches, waiting, first, f(s).value, g(r1).value, k - 1);
      assert Run(g, r1, j + 1) == Run(g, g(r1).value, j);
      assert Run(g, r, skip + (j + 1)) == Run(g, r1, j + 1);
      j := skip + (j + 1);
    }
  }

  /** The same from matching states, behind the block both are about to enter. */
  lemma MatchToWaiting(f: Stepper, g: Stepper, headers: seq<Label>, matches: Relation, waiting: Relation, rho: Rho,
                       s: State, r: State, k: nat) returns (j: nat, more: Rho)
    requires Simulates(f, g, headers, matches, waiting) && matches(rho, s, r) && k > 0
    requires Run(f, s, k).Some? && Run(f, s, k).value.at in headers
    ensures Run(g, r, j).Some? && waiting(more, Run(f, s, k).value, Run(g, r, j).value)
  {
    var first := FirstStep(f, g, headers, matches, waiting, rho, s, r);
    RunGoesOn(f, s, k - 1);
    j, more := RunToWaiting(f, g, headers, matches, waiting, first, f(s).value, g(r).value, k - 1);
    assert Run(g, r, j + 1) == Run(g, g(r).value, j);
    j := j + 1;
  }

  lemma EntryToWaiting(f: Stepper, g: Stepper, headers: seq<Label>, matches: Relation, waiting: Relation, rho: Rho,
                       s: State, r: State, k: nat) returns (j: nat, more: Rho)
    requires Simulates(f, g, headers, matches, waiting) && k > 0 && g(r).Some?
    requires StepsTogether(headers, matches, waiting, rho, f(s), g(g(r).value))
    requires Run(f, s, k).Some? && Run(f, s, k).value.at in headers
    ensures Run(g, r, j).Some? && waiting(more, Run(f, s, k).value, Run(g, r, j).value)
  {
    var r1 := g(r).value;
    assert f(s).Some? && Run(f, s, k) == Run(f, f(s).value, k - 1);
    j, more := RunToWaiting(f, g, headers, matches, waiting, rho, f(s).value, g(r1).value, k - 1);
    assert Run(g, r1, j + 1) == Run(g, g(r1).value, j);
    assert Run(g, r, j + 2) == Run(g, r1, j + 1);
    j := j + 2;
  }

  /** The relations of the transformation. */
  ghost function MatchesBy(ps: Pointers, p: Program, headers: seq<Label>, view: View): Relation
    requires ps.Acyclic()
  {
    (rho, s, r) => Matches(ps, p, headers, view, rho, s, r)
  }

  ghost function WaitingBy(ps: Pointers, p: Program, headers: seq<Label>, view: View): Relation
    requires ps.Acyclic()
  {
    (rho, s, r) => AtCheckpoint(ps, p, headers, view, rho, s, r)
  }

  lemma ShapeSimulates(sem: Sem, ps: Pointers, p: Program, headers: seq<Label>, t: Program, view: View)
    requires ps.Acyclic() && Shape(ps, p, headers, t, view)
    ensures Simulates(Steps(sem, p), Steps(sem, t), headers, MatchesBy(ps, p, headers, view), WaitingBy(ps, p, headers, view))
  {
    assert InShape(0);
    var matches, waiting := MatchesBy(ps, p, headers, view), WaitingBy(ps, p, headers, view);
    forall rho, s, r | matches(rho, s, r)
      ensures r.at == s.at && s.at.Orig?
      ensures exists more :: Extends(rho, more) &&
                             StepsTogether(headers, matches, waiting, more, Steps(sem, p)(s), Steps(sem, t)(r))
    {
      var more := StepSim(sem, ps, p, headers, t, view, rho, s, r);
      assert StepsTogether(headers, matches, waiting, more, Steps(sem, p)(s), Steps(sem, t)(r));
    }
    forall rho, s, r | waiting(rho, s, r)
      ensures r.at.Checkpoint? && Steps(sem, t)(r).Some? && matches(rho, s, Steps(sem, t)(r).value)
    {
      CheckpointSim(sem, ps, p, headers, t, view, rho, s, r);
    }
  }

  // ----- the beginning of a run -----

  lemma {:induction false} NoCaseMatches(cases: seq<(nat, Label)>, default: Label, key: nat)
    requires forall i :: 0 <= i < |cases| ==> cases[i].0 != key
    ensures Choose(cases, default, key) == default
  {
    if cases != [] { NoCaseMatches(cases[1..], default, key); }
  }

  lemma {:induction false} CaseMatches(cases: seq<(nat, Label)>, default: Label, k: nat)
    requires k < |cases| && forall i, j :: 0 <= i < j < |cases| ==> cases[i].0 != cases[j].0
    ensures Choose(cases, default, cases[k].0) == cases[k].1
  {
    if k > 0 {
      assert forall i, j :: 0 <= i < j < |cases[1..]| ==> cases[1..][i].0 == cases[i + 1].0 && cases[1..][j].0 == cases[j + 1].0;
      CaseMatches(cases[1..], default, k - 1);
    }
  }

  /** The switch at entry: on to the moved entry code without a checkpoint, else to the restart block of its label. */
  lemma DispatchSim(sem: Sem, t: Program, headers: seq<Label>, r: State)
    requires r.at in t.blocks && t.blocks[r.at] == DispatchBlock(headers)
    requires |headers| < 0xFFFF_FFFF_FFFF_FFFF
    ensures var next := Step(sem, t, r);
            && next.Some? && next.value.pred == r.at && next.value.world == r.world
            && (r.world.io.resume.None? ==> next.value.at == NoCREntry)
            && (r.world.io.resume.Some? && r.world.io.resume.value < |headers| ==>
                  next.value.at == RestartOf(headers[r.world.io.resume.value]))
            && (r.world.io.resume.Some? && r.world.io.resume.value >= |headers| ==> next.value.at == NoCREntry)
            && forall v :: v != ResumeLabel ==> Get(next.value.env, v) == Get(r.env, v)
  {
    var d := DispatchBlock(headers);
    var resume := r.world.io.resume;
    var (env, w) := RunBody(sem, d.body, r.env, r.world);
    assert RunPhis(d.phis, r.pred, r.env) == r.env;
    assert d.body[1..] == [];
    var (e, w') := RunInstr(sem, d.body[0], r.env, r.world);
    assert (env, w) == (e, w');
    assert EvalAll(env, d.term.args) == [Get(env, ResumeLabel)];
    if resume.None? {
      NoCaseMatches(d.term.cases, NoCREntry, 0xFFFF_FFFF_FFFF_FFFF);
    } else if resume.value < |headers| {
      CaseMatches(d.term.cases, NoCREntry, resume.value);
    } else {
      NoCaseMatches(d.term.cases, NoCREntry, resume.value);
    }
  }

  lemma NoPhis(pred: Label, env: Env)
    ensures RunPhis(map[], pred, env) == env
  {
  }

  /** The entry block's code, where it has been moved to. */
  lemma EntrySim(sem: Sem, ps: Pointers, p: Program, headers: seq<Label>, t: Program, view: View, rho: Rho, s: State, r: State)
    returns (more: Rho)
    requires ps.Acyclic() && Shape(ps, p, headers, t, view)
    requires s.at == p.entry && r.at == NoCREntry
    requires SameMemory(rho, s.world, r.world) && forall v :: v in p.args ==> Same(rho, Get(s.env, v), Get(r.env, v))
    ensures Extends(rho, more) && InStep(ps, p, headers, view, more, Step(sem, p, s), Step(sem, t, r))
  {
    assert InShape(0);
    var b := p.blocks[p.entry];
    NoPhis(s.pred, s.env);
    NoPhis(r.pred, r.env);
    assert Related(rho, s.env, r.env, {}, NoCREntry, BodyLive(ps, b.body, b.term, view.Out(p.entry)));
    more := CodeSim(sem, ps, p, headers, view, p.entry, {}, NoCREntry, t.blocks[NoCREntry].body, t.blocks[NoCREntry].term,
                    rho, s.env, s.world, r.env, r.world);
  }

  /** When the entry block returns, so does its code where it has been moved to. */
  lemma EntryReturnSim(sem: Sem, ps: Pointers, p: Program, headers: seq<Label>, t: Program, view: View, rho: Rho, s: State, r: State)
    returns (more: Rho)
    requires ps.Acyclic() && Shape(ps, p, headers, t, view)
    requires s.at == p.entry && r.at == NoCREntry
    requires SameMemory(rho, s.world, r.world) && forall v :: v in p.args ==> Same(rho, Get(s.env, v), Get(r.env, v))
    ensures Extends(rho, more) && ReturnsAlike(more, Returned(sem, p, s), Returned(sem, t, r))
  {
    assert InShape(0);
    var b := p.blocks[p.entry];
    NoPhis(s.pred, s.env);
    NoPhis(r.pred, r.env);
    assert Related(rho, s.env, r.env, {}, NoCREntry, BodyLive(ps, b.body, b.term, view.Out(p.entry)));
    more := CodeReturns(sem, ps, p, headers, view, p.entry, {}, NoCREntry, t.blocks[NoCREntry].body, t.blocks[NoCREntry].term,
                        rho, s.env, s.world, r.env, r.world);
  }
}
