/**
  Restart is transparent: what a checkpoint block saved brings a fresh process to a state from
  which the function takes the same branches and computes the same values.
 */
module Transparency {
  import opened Streams
  import opened Records
  import opened Directory
  import opened IR
  import opened Pointers
  import opened Cfg
  import opened UseDef
  import opened Renaming
  import opened Transform
  import opened Function
  import opened Simulation
  import opened Rewriting
  import opened Locality
  import opened Emission
  import opened Plans
  import opened Typing
  import opened SaveRestore
  import opened RuntimeCodec

  // ----- the checkpoint block under its phis' names -----

  /** The environment of a block in which each live value is found under its phi's name, under its own name again. */
  function Unsub(any: set<Value>, l: Label, env: Env): Env {
    env + map v | v in any :: Get(env, LivePhi(v, l))
  }

  lemma UnsubArgs(any: set<Value>, l: Label, env: Env, os: seq<Operand>)
    ensures EvalAll(env, SubArgs(any, l, os)) == EvalAll(Unsub(any, l, env), os)
  {
    forall i | 0 <= i < |os|
      ensures Eval(env, SubArgs(any, l, os)[i]) == Eval(Unsub(any, l, env), os[i])
    {
    }
  }

  lemma {:induction false} UnsubRun(sem: Sem, any: set<Value>, l: Label, body: seq<Instr>, env: Env, w: World)
    requires forall i :: i in body ==> i.dst.None?
    ensures RunBody(sem, SubBody(any, l, body), env, w) == (env, RunBody(sem, body, Unsub(any, l, env), w).1)
    decreases |body|
  {
    if body != [] {
      assert body[0] in body && forall i :: i in body[1..] ==> i in body;
      UnsubArgs(any, l, env, body[0].args);
      var w' := RunInstr(sem, body[0], Unsub(any, l, env), w).1;
      UnsubRun(sem, any, l, body[1..], env, w');
      assert SubBody(any, l, body)[1..] == SubBody(any, l, body[1..]);
    }
  }

  // ----- what is good stays good under a renaming -----

  function Moved(rho: Rho, owner: Owner): Owner
    requires Injective(rho)
  {
    map a | a in rho && a in owner :: rho[a] := owner[a]
  }

  lemma SameSize(rho: Rho, env: Env, renv: Env, o: Operand)
    requires o.Use? ==> Same(rho, Get(env, o.v), Get(renv, o.v))
    ensures IntOf(Eval(renv, o)) == IntOf(Eval(env, o))
  {
  }

  lemma GoodMoved(ps: Pointers, ty: Types, rho: Rho, owner: Owner, env: Env, w: World, renv: Env, u: World, vs: set<Value>, v: Value)
    requires SameMemory(rho, w, u) && forall a :: a in vs ==> Same(rho, Get(env, a), Get(renv, a))
    requires v in vs && Direct(ps, v) <= vs && Good(ps, ty, owner, env, w, v)
    ensures Good(ps, ty, Moved(rho, owner), renv, u, v) && Below(u, Get(renv, v))
  {
    if v in ps.info {
      SameSize(rho, env, renv, ps.info[v].typeSizeInBits);
      SameSize(rho, env, renv, ps.info[v].numElements);
    }
  }

  // ----- the whole code of the two blocks -----

  /** The world behind a checkpoint block: label and count announced, one file for each record, one more attempt completed. */
  function Saved(w: World, k: nat, files: seq<File>): World {
    w.(io := w.io.(info := Some((k, |files|)), output := files, failed := false,
                   completed := w.io.completed + [Attempted(k, |files|, files)]))
  }

  function Started(w: World, k: nat, n: nat): World {
    w.(io := w.io.(info := Some((k, n)), output := [], failed := false))
  }

  lemma StartRun(sem: Sem, k: nat, n: nat, env: Env, w: World)
    ensures RunInstr(sem, StartCall(k, n), env, w) == (env, Started(w, k, n))
  {
    assert EvalAll(env, [Const(k), Const(n)]) == [Int(k), Int(n)];
  }

  lemma {:induction false} StartIgnored(sem: Sem, ps: Pointers, ty: Types, env: Env, w: World, k: nat, n: nat, order: Order)
    ensures FilesOf(sem, ps, ty, env, Started(w, k, n), order) == FilesOf(sem, ps, ty, env, w, order)
    ensures AllSurvive(sem, ps, ty, env, w, order) ==> AllSurvive(sem, ps, ty, env, Started(w, k, n), order)
    decreases |order|
  {
    if order != [] { StartIgnored(sem, ps, ty, env, w, k, n, Before(order)); }
  }

  lemma SaveCodeAround(sem: Sem, ps: Pointers, ty: Types, l: Label, k: nat, env: Env, w: World, order: Order, w2: World)
    requires RunBody(sem, SavesOf(ps, ty, order), env, Started(w, k, |order|)) == (env, w2)
    ensures RunBody(sem, EmittedCode(ps, ty, l, k, order).saves, env, w).1 == FinishAttempt(w2)
  {
    StartRun(sem, k, |order|, env, w);
    AroundRun(sem, StartCall(k, |order|), SavesOf(ps, ty, order), Instr(None, SaveFinish, []), env, w);
  }

  lemma SaveCodeRun(sem: Sem, ps: Pointers, ty: Types, l: Label, k: nat, owner: Owner, env: Env, w: World, order: Order)
    requires forall v :: v in order ==> Good(ps, ty, owner, env, w, v)
    requires AllSurvive(sem, ps, ty, env, w, order)
    ensures RunBody(sem, EmittedCode(ps, ty, l, k, order).saves, env, w).1 ==
            Saved(w, k, FilesOf(sem, ps, ty, env, w, order))
  {
    var w1, files := Started(w, k, |order|), FilesOf(sem, ps, ty, env, w, order);
    StartIgnored(sem, ps, ty, env, w, k, |order|, order);
    SavesRun(sem, ps, ty, owner, env, w1, order);
    SaveCodeAround(sem, ps, ty, l, k, env, w, order, WrittenAll(w1, files));
    AllIsSaved(w, k, files);
  }

  /** Code with one instruction in front and one behind. */
  lemma AroundRun(sem: Sem, start: Instr, body: seq<Instr>, finish: Instr, env: Env, w: World)
    ensures var (env1, w1) := RunInstr(sem, start, env, w);
            var (env2, w2) := RunBody(sem, body, env1, w1);
            RunBody(sem, [start] + (body + [finish]), env, w) == RunInstr(sem, finish, env2, w2)
  {
    var (env1, w1) := RunInstr(sem, start, env, w);
    RunOne(sem, start, env, w);
    RunConcat(sem, [start], body + [finish], env, w);
    RunConcat(sem, body, [finish], env1, w1);
    RunOne(sem, finish, RunBody(sem, body, env1, w1).0, RunBody(sem, body, env1, w1).1);
  }

  lemma AllIsSaved(w: World, k: nat, files: seq<File>)
    ensures FinishAttempt(WrittenAll(Started(w, k, |files|), files)) == Saved(w, k, files)
  {
    assert [] + files == files;
  }

  lemma RestoreCodeRun(sem: Sem, ps: Pointers, ty: Types, l: Label, k: nat, owner: Owner, order: Order, env: Env, w: World,
                       renv: Env, u: World, files: seq<File>) returns (rho: Rho)
    requires KnownAliases(ps) && OriginsFit(ps, ty) && WellOrdered(ps, order)
    requires forall v :: v in order ==> Good(ps, ty, owner, env, w, v) && Below(w, Get(env, v))
    requires AllSurvive(sem, ps, ty, env, w, order)
    requires FreshProcess(u, files) && files == FilesOf(sem, ps, ty, env, w, order)
    ensures var (renv', u') := RunBody(sem, EmittedCode(ps, ty, l, k, order).restores, renv, u);
            RestartOver(l, rho, order, env, w, renv', u')
  {
    var restores, finish := RestoresOf(ps, ty, l, order), [Instr(None, LoadFinish, [])];
    rho := RestoresRun(sem, ps, ty, l, owner, order, env, w, renv, u, files);
    var (renv', u') := RunBody(sem, restores, renv, u);
    RunConcat(sem, restores, finish, renv, u);
    RunOne(sem, finish[0], renv', u');
  }

  // ----- the files depend on the function's state only -----

  ghost predicate SameValues(rho: Rho, env: Env, renv: Env, vs: set<Value>) {
    forall a :: a in vs ==> Same(rho, Get(env, a), Get(renv, a))
  }

  lemma {:induction false} FoundMoved(rho: Rho, env: Env, renv: Env, before: Order, aliases: seq<Value>, d: Data, e: Data)
    requires Injective(rho) && Same(rho, d, e)
    requires forall a :: a in aliases ==> Same(rho, Get(env, a), Get(renv, a))
    ensures FoundIn(renv, before, aliases, e) == FoundIn(env, before, aliases, d)
  {
    if aliases != [] {
      assert aliases[0] in aliases;
      SamePointers(rho, Get(env, aliases[0]), d, Get(renv, aliases[0]), e);
      FoundMoved(rho, env, renv, before, aliases[1..], d, e);
    }
  }

  lemma SizesMoved(ps: Pointers, rho: Rho, env: Env, renv: Env, vs: set<Value>, v: Value)
    requires SameValues(rho, env, renv, vs) && Direct(ps, v) <= vs
    ensures SizeOf(ps, renv, v) == SizeOf(ps, env, v) && CountOf(ps, renv, v) == CountOf(ps, env, v)
  {
    if v in ps.info {
      SameSize(rho, env, renv, ps.info[v].typeSizeInBits);
      SameSize(rho, env, renv, ps.info[v].numElements);
    }
  }

  lemma FileMoved(sem: Sem, ps: Pointers, ty: Types, rho: Rho, owner: Owner, env: Env, w: World, renv: Env, u: World,
                  before: Order, v: Value, vs: set<Value>)
    requires SameMemory(rho, w, u) && SameValues(rho, env, renv, vs) && v in vs && Direct(ps, v) <= vs
    requires OriginsFit(ps, ty) && Good(ps, ty, owner, env, w, v)
    ensures FileOf(sem, ps, ty, renv, u, before, v) == FileOf(sem, ps, ty, env, w, before, v)
    ensures Survives(sem, ps, ty, renv, u, before, v) == Survives(sem, ps, ty, env, w, before, v)
  {
    SizesMoved(ps, rho, env, renv, vs, v);
    if v in ps.info {
      assert OriginFits(ps, ty, v);
      if ty.OriginOf(v).Derived? {
        assert forall a :: a in ps.info[v].aliasSet ==> a in Direct(ps, v);
        FoundMoved(rho, env, renv, before, ps.info[v].aliasSet, Get(env, v), Get(renv, v));
      } else {
        assert CellOf(u, Get(renv, v)) == CellOf(w, Get(env, v));
      }
    }
  }

  lemma {:induction false} FilesMoved(sem: Sem, ps: Pointers, ty: Types, rho: Rho, owner: Owner, env: Env, w: World,
                                      renv: Env, u: World, order: Order, vs: set<Value>)
    requires SameMemory(rho, w, u) && SameValues(rho, env, renv, vs) && WellOrdered(ps, order) && Members(order) <= vs
    requires OriginsFit(ps, ty) && forall v :: v in order ==> Good(ps, ty, owner, env, w, v)
    ensures FilesOf(sem, ps, ty, renv, u, order) == FilesOf(sem, ps, ty, env, w, order)
    ensures AllSurvive(sem, ps, ty, renv, u, order) == AllSurvive(sem, ps, ty, env, w, order)
    decreases |order|
  {
    if order != [] {
      var before, v := Before(order), Latest(order);
      assert v in Members(order) && Members(before) <= Members(order);
      assert forall a :: a in before ==> a in order;
      FilesMoved(sem, ps, ty, rho, owner, env, w, renv, u, before, vs);
      FileMoved(sem, ps, ty, rho, owner, env, w, renv, u, before, v, vs);
    }
  }

  /** Saving in a related state writes the same files. */
  lemma SaveCodeMoved(sem: Sem, ps: Pointers, ty: Types, l: Label, k: nat, rho: Rho, owner: Owner, env: Env, w: World,
                      renv: Env, u: World, order: Order)
    requires SameMemory(rho, w, u) && SameValues(rho, env, renv, Members(order)) && WellOrdered(ps, order)
    requires OriginsFit(ps, ty) && forall v :: v in order ==> Good(ps, ty, owner, env, w, v)
    requires AllSurvive(sem, ps, ty, env, w, order)
    ensures RunBody(sem, EmittedCode(ps, ty, l, k, order).saves, renv, u).1 ==
            Saved(u, k, FilesOf(sem, ps, ty, env, w, order))
  {
    FilesMoved(sem, ps, ty, rho, owner, env, w, renv, u, order, Members(order));
    forall v | v in order ensures Good(ps, ty, Moved(rho, owner), renv, u, v) {
      DirectRecorded(ps, order, v);
      GoodMoved(ps, ty, rho, owner, env, w, renv, u, Members(order), v);
    }
    SaveCodeRun(sem, ps, ty, l, k, Moved(rho, owner), renv, u, order);
  }

  // ----- the checkpoint block -----

  /** The function, its analysis, and the filled blocks. */
  ghost predicate Setting(ps: Pointers, ty: Types, p: Program, plan: Plan, orders: map<Label, Order>, live: map<Label, set<CFGUse>>) {
    && ps.Acyclic() && p.entry in p.blocks
    && forall k {:trigger InSetting(k)} :: InSetting(k) ==>
         && Analysed(ps, ty, p, live) && Given(ps, p, plan, live) && KnownAliases(ps)
         && Filled(ps, ty, plan, orders, live)
  }

  /** Marks where a proof looks inside `Setting`. */
  ghost predicate InSetting(k: nat) { true }

  lemma CheckpointBlock(p: Program, plan: Plan, live: map<Label, set<CFGUse>>, h: Label)
    requires ProgramOk(p) && PlanOk(p, plan) && h in plan.headers
    ensures var t := Transformed(p, plan, live);
            var l := CheckpointOf(h);
            && l in t.blocks && t.blocks[l].body == SubBody(AnyAt(live, h), l, EmittedFor(plan, h).saves)
            && t.blocks[l].term == SubTerm(AnyAt(live, h), l, Jump(h))
  {
    var l := CheckpointOf(h);
    assert h.Orig? && Orig(l.id) == h;
    InsertedBlocks(p, plan, h);
    FixedAt(p, plan, live, l);
    NodeAt(p, plan, live, l);
  }

  /** Behind the phis of the checkpoint block, each live value is there, under the name of its phi. */
  lemma ValuesAtCheckpoint(ps: Pointers, p: Program, headers: seq<Label>, t: Program, view: View, rho: Rho, s: State, r: State)
    requires ps.Acyclic() && AtCheckpoint(ps, p, headers, view, rho, s, r)
    requires p.blocks[s.at].phis == map[] && CheckpointShape(p, t, view, s.at)
    ensures r.at in t.blocks
    ensures SameValues(rho, s.env, Unsub(view.Any(s.at), r.at, RunPhis(t.blocks[r.at].phis, r.pred, r.env)), view.Any(s.at))
  {
    CheckpointPhis(ps, p, t, view, rho, s.env, r.env, s.pred, s.at);
  }

  /** One checkpoint block: its code writes the files of the function's own state, and control goes on to the header. */
  lemma SavesBlockRun(sem: Sem, ps: Pointers, ty: Types, k: nat, rho: Rho, owner: Owner, s: State, r: State, t: Program,
                      any: set<Value>, l: Label, order: Order)
    requires r.at in t.blocks && t.blocks[r.at].body == SubBody(any, r.at, EmittedCode(ps, ty, l, k, order).saves)
    requires t.blocks[r.at].term == SubTerm(any, r.at, Jump(s.at))
    requires SameMemory(rho, s.world, r.world) && WellOrdered(ps, order) && OriginsFit(ps, ty) && Members(order) == any
    requires SameValues(rho, s.env, Unsub(any, r.at, RunPhis(t.blocks[r.at].phis, r.pred, r.env)), any)
    requires forall v :: v in order ==> Good(ps, ty, owner, s.env, s.world, v)
    requires AllSurvive(sem, ps, ty, s.env, s.world, order)
    ensures var next := Step(sem, t, r);
            && next.Some? && next.value.at == s.at
            && next.value.world == Saved(r.world, k, FilesOf(sem, ps, ty, s.env, s.world, order))
  {
    var code := EmittedCode(ps, ty, l, k, order).saves;
    var renv := RunPhis(t.blocks[r.at].phis, r.pred, r.env);
    EmittedSaves(ps, ty, l, k, order);
    UnsubRun(sem, any, r.at, code, renv, r.world);
    SaveCodeMoved(sem, ps, ty, l, k, rho, owner, s.env, s.world, Unsub(any, r.at, renv), r.world, order);
  }

  /** What a header's live values are like when control is about to enter it. */
  lemma LiveGood(ps: Pointers, ty: Types, p: Program, plan: Plan, orders: map<Label, Order>, live: map<Label, set<CFGUse>>,
                 k: nat, owner: Owner, s: State)
    requires Setting(ps, ty, p, plan, orders, live) && SoundBy(ps, ty, p, live, owner, s)
    requires k < |plan.headers| && plan.headers[k] == s.at && s.at in orders
    ensures forall v :: v in orders[s.at] ==> Good(ps, ty, owner, s.env, s.world, v) && Below(s.world, Get(s.env, v))
  {
    assert InSetting(0) && InGiven(0) && InAnalysed(0);
    HeaderLive(ps, ty, p, plan, orders, live, k);
    EntryApart(p, plan, s.at);
    OrderGood(ps, ty, p, live, owner, s, orders[s.at]);
  }

  lemma HeaderLive(ps: Pointers, ty: Types, p: Program, plan: Plan, orders: map<Label, Order>, live: map<Label, set<CFGUse>>, k: nat)
    requires Filled(ps, ty, plan, orders, live) && k < |plan.headers|
    ensures plan.headers[k] in orders && Members(orders[plan.headers[k]]) == AnyAt(live, plan.headers[k])
  {
    assert CodeFor(ps, ty, plan, orders, k, AnyAt(live, plan.headers[k]));
  }

  lemma EntryApart(p: Program, plan: Plan, h: Label)
    requires PlanOk(p, plan) && h in plan.headers
    ensures h != p.entry && h in p.blocks
  {
  }

  lemma OrderGood(ps: Pointers, ty: Types, p: Program, live: map<Label, set<CFGUse>>, owner: Owner, s: State, order: Order)
    requires ps.Acyclic() && SoundBy(ps, ty, p, live, owner, s) && s.at != p.entry && Members(order) == AnyAt(live, s.at)
    ensures forall v :: v in order ==> Good(ps, ty, owner, s.env, s.world, v) && Below(s.world, Get(s.env, v))
  {
    forall v | v in order
      ensures Good(ps, ty, owner, s.env, s.world, v) && Below(s.world, Get(s.env, v))
    {
      assert v in Members(order) && v in EdgeValues(ps, p, live, s.pred, s.at);
    }
  }

  /** The files a checkpoint of state `s` at header number `k` consists of. */
  function CheckpointFiles(sem: Sem, ps: Pointers, ty: Types, orders: map<Label, Order>, s: State): seq<File>
    requires s.at in orders
  {
    FilesOf(sem, ps, ty, s.env, s.world, orders[s.at])
  }

  ghost predicate CanBeSaved(sem: Sem, ps: Pointers, ty: Types, orders: map<Label, Order>, s: State) {
    s.at in orders && AllSurvive(sem, ps, ty, s.env, s.world, orders[s.at])
  }

  /** The checkpoint block announces the label of its header and writes a file for each live value of the function. */
  lemma CheckpointWrites(sem: Sem, ps: Pointers, ty: Types, p: Program, plan: Plan, orders: map<Label, Order>,
                         live: map<Label, set<CFGUse>>, k: nat, rho: Rho, s: State, r: State)
    requires Setting(ps, ty, p, plan, orders, live) && Sound(ps, ty, p, live, s)
    requires k < |plan.headers| && plan.headers[k] == s.at && CanBeSaved(sem, ps, ty, orders, s)
    requires AtCheckpoint(ps, p, plan.headers, ViewOf(ps, p, plan, live), rho, s, r)
    ensures var next := Step(sem, Transformed(p, plan, live), r);
            && next.Some? && next.value.at == s.at
            && next.value.world == Saved(r.world, k, CheckpointFiles(sem, ps, ty, orders, s))
  {
    assert InSetting(0) && InGiven(0) && InAnalysed(0);
    var h, t, view := s.at, Transformed(p, plan, live), ViewOf(ps, p, plan, live);
    var owner :| SoundBy(ps, ty, p, live, owner, s);
    assert h in plan.headers && CodeFor(ps, ty, plan, orders, k, AnyAt(live, h));
    CheckpointShapeHolds(ps, p, plan, live, h);
    ValuesAtCheckpoint(ps, p, plan.headers, t, view, rho, s, r);
    ViewAt(ps, p, plan, live, h);
    CheckpointBlock(p, plan, live, h);
    LiveGood(ps, ty, p, plan, orders, live, k, owner, s);
    SavesBlockRun(sem, ps, ty, k, rho, owner, s, r, t, AnyAt(live, h), RestartOf(h), orders[h]);
  }

  // ----- the restart block -----

  lemma RestoresBlockRun(sem: Sem, ps: Pointers, ty: Types, k: nat, owner: Owner, s: State, q: State, t: Program, order: Order)
    returns (rho: Rho)
    requires q.at in t.blocks
    requires t.blocks[q.at] == Block(map[], SubBody({}, q.at, EmittedCode(ps, ty, q.at, k, order).restores),
                                     SubTerm({}, q.at, Jump(s.at)))
    requires KnownAliases(ps) && OriginsFit(ps, ty) && WellOrdered(ps, order)
    requires forall v :: v in order ==> Good(ps, ty, owner, s.env, s.world, v) && Below(s.world, Get(s.env, v))
    requires AllSurvive(sem, ps, ty, s.env, s.world, order)
    requires FreshProcess(q.world, FilesOf(sem, ps, ty, s.env, s.world, order))
    ensures var next := Step(sem, t, q);
            && next.Some? && next.value.at == s.at && next.value.pred == q.at
            && RestartOver(q.at, rho, order, s.env, s.world, next.value.env, next.value.world)
  {
    var code := EmittedCode(ps, ty, q.at, k, order).restores;
    NoPhis(q.pred, q.env);
    SubNothing(q.at, code);
    rho := RestoreCodeRun(sem, ps, ty, q.at, k, owner, order, s.env, s.world, q.env, q.world,
                          FilesOf(sem, ps, ty, s.env, s.world, order));
  }

  /** At the end of a restart block each live value has its restored name. */
  lemma RestartNames(ps: Pointers, ty: Types, p: Program, plan: Plan, orders: map<Label, Order>, live: map<Label, set<CFGUse>>, k: nat)
    requires ps.Acyclic() && ProgramOk(p) && PlanOk(p, plan) && Filled(ps, ty, plan, orders, live) && k < |plan.headers|
    ensures var h := plan.headers[k];
            forall v :: v in AnyAt(live, h) ==>
              ViewOf(ps, p, plan, live).name(RestartOf(h), v) == Restored(v, RestartOf(h))
  {
    var h := plan.headers[k];
    var l := RestartOf(h);
    assert h in plan.headers && h.Orig? && Orig(l.id) == h;
    assert CodeFor(ps, ty, plan, orders, k, AnyAt(live, h));
    InsertedBlocks(p, plan, h);
    forall v | v in AnyAt(live, h)
      ensures ViewOf(ps, p, plan, live).name(l, v) == Restored(v, l)
    {
      NameAt(ps, p, plan, live, l, v);
      assert v in orders[h] && EmittedFor(plan, h).restored[v] == Restored(v, l);
    }
  }

  /** A rebuilt state matches the state that was saved. */
  lemma RebuiltMatches(ps: Pointers, ty: Types, p: Program, plan: Plan, orders: map<Label, Order>, live: map<Label, set<CFGUse>>,
                       k: nat, rho: Rho, s: State, q: State)
    requires ps.Acyclic() && ProgramOk(p) && PlanOk(p, plan) && Filled(ps, ty, plan, orders, live)
    requires IsEdge(p, s.pred, s.at)
    requires k < |plan.headers| && plan.headers[k] == s.at && s.at in orders
    requires q.at == s.at && q.pred == RestartOf(s.at)
    requires RestartOver(q.pred, rho, orders[s.at], s.env, s.world, q.env, q.world)
    ensures Matches(ps, p, plan.headers, ViewOf(ps, p, plan, live), rho, s, q)
  {
    var h := s.at;
    assert h in plan.headers && CodeFor(ps, ty, plan, orders, k, AnyAt(live, h));
    RestartNames(ps, ty, p, plan, orders, live, k);
    ViewAt(ps, p, plan, live, h);
    NoPhisNoNeeds(ps, p, h, s.pred);
    RestoredRelated(rho, q.pred, orders[h], s.env, q.env, ViewOf(ps, p, plan, live), AnyAt(live, h));
  }

  lemma NoPhisNoNeeds(ps: Pointers, p: Program, h: Label, m: Label)
    requires ps.Acyclic() && h in p.blocks && p.blocks[h].phis == map[]
    ensures PhiNeeds(ps, p.blocks[h].phis, m) == {}
  {
  }

  lemma RestoredRelated(rho: Rho, l: Label, order: Order, env: Env, renv: Env, view: View, any: set<Value>)
    requires ValuesSame(rho, l, order, env, renv) && Members(order) == any
    requires forall v :: v in any ==> view.name(l, v) == Restored(v, l)
    ensures EdgeRelated(rho, env, renv, view, l, any)
  {
    forall v | v in any ensures Same(rho, Get(env, v), Get(renv, view.name(l, v))) {
      assert v in order;
    }
  }

  /** The entry block of a fresh process that is to resume at header number `k`. */
  ghost predicate Resumes(p: Program, q: State, k: nat, files: seq<File>) {
    q.at == p.entry && q.world.io.resume == Some(k) && FreshProcess(q.world, files)
  }

  /** The switch at the entry takes the restart block of the header whose label the directory holds. */
  lemma SwitchReaches(sem: Sem, ps: Pointers, ty: Types, p: Program, plan: Plan, orders: map<Label, Order>,
                      live: map<Label, set<CFGUse>>, k: nat, q: State)
    requires Setting(ps, ty, p, plan, orders, live) && k < |plan.headers|
    requires q.at == p.entry && q.world.io.resume == Some(k)
    ensures var next := Step(sem, Transformed(p, plan, live), q);
            && next.Some? && next.value.at == RestartOf(plan.headers[k]) && next.value.world == q.world
  {
    assert InSetting(0) && InGiven(0) && InAnalysed(0);
    EntryBlocksHold(ps, p, plan, live);
    DispatchSim(sem, Transformed(p, plan, live), plan.headers, q);
  }

  /** From the entry, through the switch and the restart block, to the header, in the state that was saved. */
  lemma RestartReaches(sem: Sem, ps: Pointers, ty: Types, p: Program, plan: Plan, orders: map<Label, Order>,
                       live: map<Label, set<CFGUse>>, k: nat, s: State, q: State) returns (rho: Rho)
    requires Setting(ps, ty, p, plan, orders, live) && Sound(ps, ty, p, live, s)
    requires k < |plan.headers| && plan.headers[k] == s.at && CanBeSaved(sem, ps, ty, orders, s)
    requires Resumes(p, q, k, CheckpointFiles(sem, ps, ty, orders, s))
    ensures var g := Steps(sem, Transformed(p, plan, live));
            && Visible(g, q, 2) == [p.entry]
            && Run(g, q, 2).Some? && Matches(ps, p, plan.headers, ViewOf(ps, p, plan, live), rho, s, Run(g, q, 2).value)
            && RestartIsOver(Run(g, q, 2).value.world.io)
  {
    assert InSetting(0) && InGiven(0) && InAnalysed(0);
    var h, t := s.at, Transformed(p, plan, live);
    var owner :| SoundBy(ps, ty, p, live, owner, s);
    assert h in plan.headers && CodeFor(ps, ty, plan, orders, k, AnyAt(live, h));
    SwitchReaches(sem, ps, ty, p, plan, orders, live, k, q);
    var q1 := Step(sem, t, q).value;
    RestartBlock(p, plan, live, h);
    LiveGood(ps, ty, p, plan, orders, live, k, owner, s);
    rho := RestoresBlockRun(sem, ps, ty, k, owner, s, q1, t, orders[h]);
    RebuiltMatches(ps, ty, p, plan, orders, live, k, rho, s, Step(sem, t, q1).value);
    TwoSteps(sem, t, q);
  }

  lemma TwoSteps(sem: Sem, t: Program, q: State)
    requires Step(sem, t, q).Some? && q.at.Orig? && !Step(sem, t, q).value.at.Orig?
    ensures Run(Steps(sem, t), q, 2) == Step(sem, t, Step(sem, t, q).value)
    ensures Visible(Steps(sem, t), q, 2) == [q.at]
  {
    var q1 := Step(sem, t, q).value;
    assert Run(Steps(sem, t), q, 2) == Run(Steps(sem, t), q1, 1);
    assert Visible(Steps(sem, t), q1, 1) == [];
    assert Run(Steps(sem, t), q1, 1) == Step(sem, t, q1) || Step(sem, t, q1).Some?;
    if Step(sem, t, q1).Some? {
      assert Run(Steps(sem, t), q1, 1) == Run(Steps(sem, t), Step(sem, t, q1).value, 0);
    }
  }

  // ----- whole runs -----

  /** Both functions at their entries: the same arguments and memory up to a renaming, and nothing to resume. */
  ghost predicate Starts(p: Program, rho: Rho, s: State, r: State) {
    && s.at == p.entry && r.at == p.entry && r.world.io.resume.None?
    && SameMemory(rho, s.world, r.world) && forall v :: v in p.args ==> Same(rho, Get(s.env, v), Get(r.env, v))
  }

  /** The first block, in its new place behind the switch. */
  lemma FirstBlock(sem: Sem, ps: Pointers, p: Program, headers: seq<Label>, t: Program, view: View, rho: Rho, s: State, r: State)
    returns (more: Rho)
    requires ps.Acyclic() && Shape(ps, p, headers, t, view) && |headers| < 0xFFFF_FFFF_FFFF_FFFF && Starts(p, rho, s, r)
    ensures Extends(rho, more) && Step(sem, t, r).Some? && Step(sem, t, r).value.at == NoCREntry
    ensures InStep(ps, p, headers, view, more, Step(sem, p, s), Step(sem, t, Step(sem, t, r).value))
  {
    assert InShape(0);
    DispatchSim(sem, t, headers, r);
    more := EntrySim(sem, ps, p, headers, t, view, rho, s, Step(sem, t, r).value);
  }

  lemma FirstReturn(sem: Sem, ps: Pointers, p: Program, headers: seq<Label>, t: Program, view: View, rho: Rho, s: State, r: State)
    returns (more: Rho)
    requires ps.Acyclic() && Shape(ps, p, headers, t, view) && |headers| < 0xFFFF_FFFF_FFFF_FFFF && Starts(p, rho, s, r)
    ensures Extends(rho, more) && Step(sem, t, r).Some?
    ensures ReturnsAlike(more, Returned(sem, p, s), Returned(sem, t, Step(sem, t, r).value))
  {
    assert InShape(0);
    DispatchSim(sem, t, headers, r);
    more := EntryReturnSim(sem, ps, p, headers, t, view, rho, s, Step(sem, t, r).value);
  }

  /** The same, between the relations of the simulation. */
  lemma FirstTogether(sem: Sem, ps: Pointers, p: Program, plan: Plan, live: map<Label, set<CFGUse>>, rho: Rho, s: State, r: State)
    returns (more: Rho)
    requires Given(ps, p, plan, live) && Starts(p, rho, s, r)
    ensures var view, f, g := ViewOf(ps, p, plan, live), Steps(sem, p), Steps(sem, Transformed(p, plan, live));
            && Extends(rho, more) && g(r).Some? && !g(r).value.at.Orig? && s.at.Orig? && r.at == s.at
            && StepsTogether(plan.headers, MatchesBy(ps, p, plan.headers, view), WaitingBy(ps, p, plan.headers, view), more,
                             f(s), g(g(r).value))
  {
    assert InGiven(0);
    ShapeHolds(ps, p, plan, live);
    more := FirstBlock(sem, ps, p, plan.headers, Transformed(p, plan, live), ViewOf(ps, p, plan, live), rho, s, r);
  }

  /** The transformed function simulates the function. */
  lemma TransformedSimulates(sem: Sem, ps: Pointers, p: Program, plan: Plan, live: map<Label, set<CFGUse>>)
    requires Given(ps, p, plan, live)
    ensures var view := ViewOf(ps, p, plan, live);
            Simulates(Steps(sem, p), Steps(sem, Transformed(p, plan, live)), plan.headers,
                      MatchesBy(ps, p, plan.headers, view), WaitingBy(ps, p, plan.headers, view))
  {
    ShapeHolds(ps, p, plan, live);
    ShapeSimulates(sem, ps, p, plan.headers, Transformed(p, plan, live), ViewOf(ps, p, plan, live));
  }

  /** Where both runs have come, both blocks return the same, up to more renaming, or both go on. */
  ghost predicate ReturnTogether(sem: Sem, p: Program, t: Program, rho: Rho, s: Option<State>, r: Option<State>) {
    s.Some? && r.Some? ==>
      exists more :: Extends(rho, more) && ReturnsAlike(more, Returned(sem, p, s.value), Returned(sem, t, r.value))
  }

  lemma MatchReturns(sem: Sem, ps: Pointers, p: Program, plan: Plan, live: map<Label, set<CFGUse>>, rho: Rho,
                     s: Option<State>, r: Option<State>)
    requires Given(ps, p, plan, live) && EndTogether(MatchesBy(ps, p, plan.headers, ViewOf(ps, p, plan, live)), rho, s, r)
    ensures ReturnTogether(sem, p, Transformed(p, plan, live), rho, s, r)
  {
    if s.Some? {
      ShapeHolds(ps, p, plan, live);
      var more := ReturnSim(sem, ps, p, plan.headers, Transformed(p, plan, live), ViewOf(ps, p, plan, live), rho, s.value, r.value);
    }
  }

  /** When the entry block returns, the transformed function returns the same behind its switch. */
  lemma EntryReturns(sem: Sem, ps: Pointers, p: Program, plan: Plan, live: map<Label, set<CFGUse>>, rho: Rho, s: State, r: State)
    returns (more: Rho)
    requires Given(ps, p, plan, live) && Starts(p, rho, s, r)
    ensures var t := Transformed(p, plan, live);
            && Step(sem, t, r).Some? && Extends(rho, more)
            && ReturnsAlike(more, Returned(sem, p, s), Returned(sem, t, Step(sem, t, r).value))
  {
    assert InGiven(0);
    ShapeHolds(ps, p, plan, live);
    more := FirstReturn(sem, ps, p, plan.headers, Transformed(p, plan, live), ViewOf(ps, p, plan, live), rho, s, r);
  }

  /** Without a restart, the transformed function runs as the function does. */
  lemma WholeRun(sem: Sem, ps: Pointers, p: Program, plan: Plan, live: map<Label, set<CFGUse>>, rho: Rho, s: State, r: State, k: nat)
    returns (j: nat, more: Rho)
    requires Given(ps, p, plan, live) && Starts(p, rho, s, r) && k > 0
    ensures Extends(rho, more) && k <= j
    ensures var view, f, g := ViewOf(ps, p, plan, live), Steps(sem, p), Steps(sem, Transformed(p, plan, live));
            && Visible(g, r, j) == Trace(f, s, k)
            && EndTogether(MatchesBy(ps, p, plan.headers, view), more, Run(f, s, k), Run(g, r, j))
            && ReturnTogether(sem, p, Transformed(p, plan, live), more, Run(f, s, k), Run(g, r, j))
  {
    var view := ViewOf(ps, p, plan, live);
    var first := FirstTogether(sem, ps, p, plan, live, rho, s, r);
    TransformedSimulates(sem, ps, p, plan, live);
    j, more := RunFromEntry(Steps(sem, p), Steps(sem, Transformed(p, plan, live)), plan.headers,
                            MatchesBy(ps, p, plan.headers, view), WaitingBy(ps, p, plan.headers, view), first, s, r, k);
    MatchReturns(sem, ps, p, plan, live, more, Run(Steps(sem, p), s, k), Run(Steps(sem, Transformed(p, plan, live)), r, j));
  }

  /** The run of the transformed function comes to the checkpoint block whenever the function comes to a header. */
  lemma ReachesCheckpoint(sem: Sem, ps: Pointers, p: Program, plan: Plan, live: map<Label, set<CFGUse>>, rho: Rho,
                          s: State, r: State, k: nat) returns (j: nat, more: Rho)
    requires Given(ps, p, plan, live) && Starts(p, rho, s, r) && k > 0
    requires Run(Steps(sem, p), s, k).Some? && Run(Steps(sem, p), s, k).value.at in plan.headers
    ensures var at := Run(Steps(sem, Transformed(p, plan, live)), r, j);
            at.Some? && WaitingBy(ps, p, plan.headers, ViewOf(ps, p, plan, live))(more, Run(Steps(sem, p), s, k).value, at.value)
  {
    var view := ViewOf(ps, p, plan, live);
    var first := FirstTogether(sem, ps, p, plan, live, rho, s, r);
    TransformedSimulates(sem, ps, p, plan, live);
    j, more := EntryToWaiting(Steps(sem, p), Steps(sem, Transformed(p, plan, live)), plan.headers,
                              MatchesBy(ps, p, plan.headers, view), WaitingBy(ps, p, plan.headers, view), first, s, r, k);
  }

  /**
    Restart is transparent.  From a process that resumes with the files of state `s`, the transformed function passes
    through its restart block into a run through the same blocks as the function's own run from `s`: for any number of
    steps it takes the same branches, has the same live values, and returns the same when that returns.
   */
  lemma RestartIsTransparent(sem: Sem, ps: Pointers, ty: Types, p: Program, plan: Plan, orders: map<Label, Order>,
                             live: map<Label, set<CFGUse>>, i: nat, s: State, q: State, k: nat)
    returns (start: Rho, j: nat, rho: Rho)
    requires Setting(ps, ty, p, plan, orders, live) && Sound(ps, ty, p, live, s)
    requires i < |plan.headers| && plan.headers[i] == s.at && CanBeSaved(sem, ps, ty, orders, s)
    requires Resumes(p, q, i, CheckpointFiles(sem, ps, ty, orders, s))
    ensures Extends(start, rho) && k <= j
    ensures var view, f, g := ViewOf(ps, p, plan, live), Steps(sem, p), Steps(sem, Transformed(p, plan, live));
            && Run(g, q, 2).Some? && Visible(g, q, 2) == [p.entry]
            && Matches(ps, p, plan.headers, view, start, s, Run(g, q, 2).value)
            && RestartIsOver(Run(g, q, 2).value.world.io)
            && Visible(g, Run(g, q, 2).value, j) == Trace(f, s, k)
            && EndTogether(MatchesBy(ps, p, plan.headers, view), rho, Run(f, s, k), Run(g, Run(g, q, 2).value, j))
            && ReturnTogether(sem, p, Transformed(p, plan, live), rho, Run(f, s, k), Run(g, Run(g, q, 2).value, j))
  {
    assert InSetting(0);
    var view := ViewOf(ps, p, plan, live);
    var f, g := Steps(sem, p), Steps(sem, Transformed(p, plan, live));
    start := RestartReaches(sem, ps, ty, p, plan, orders, live, i, s, q);
    TransformedSimulates(sem, ps, p, plan, live);
    j, rho := RunSim(f, g, plan.headers, MatchesBy(ps, p, plan.headers, view), WaitingBy(ps, p, plan.headers, view),
                     start, s, Run(g, q, 2).value, k);
    MatchReturns(sem, ps, p, plan, live, rho, Run(f, s, k), Run(g, Run(g, q, 2).value, j));
  }

  /** A restarted run comes to the checkpoint block as well, whenever the function comes to a header again. */
  lemma ReachesCheckpointAgain(sem: Sem, ps: Pointers, p: Program, plan: Plan, live: map<Label, set<CFGUse>>, rho: Rho,
                               s: State, r: State, k: nat) returns (j: nat, more: Rho)
    requires Given(ps, p, plan, live) && MatchesBy(ps, p, plan.headers, ViewOf(ps, p, plan, live))(rho, s, r) && k > 0
    requires Run(Steps(sem, p), s, k).Some? && Run(Steps(sem, p), s, k).value.at in plan.headers
    ensures var at := Run(Steps(sem, Transformed(p, plan, live)), r, j);
            at.Some? && WaitingBy(ps, p, plan.headers, ViewOf(ps, p, plan, live))(more, Run(Steps(sem, p), s, k).value, at.value)
  {
    var view := ViewOf(ps, p, plan, live);
    TransformedSimulates(sem, ps, p, plan, live);
    j, more := MatchToWaiting(Steps(sem, p), Steps(sem, Transformed(p, plan, live)), plan.headers,
                              MatchesBy(ps, p, plan.headers, view), WaitingBy(ps, p, plan.headers, view), rho, s, r, k);
  }

  /** What an attempt leaves, as a directory. */
  function DirectoryOf(a: Attempted): Dir {
    Dir(Some(InfoFile(a.labelNumber, a.count)), a.files)
  }

  /** The checkpoint of state `s` at header number `i`. */
  function CheckpointOfState(sem: Sem, ps: Pointers, ty: Types, orders: map<Label, Order>, s: State, i: nat): Attempted
    requires s.at in orders
  {
    Attempted(i, |orders[s.at]|, CheckpointFiles(sem, ps, ty, orders, s))
  }

  /** Behind its checkpoint block a run has completed one more attempt; it validates, with the label its restart block answers to. */
  lemma CheckpointValidates(lib: Library, sem: Sem, ps: Pointers, ty: Types, p: Program, plan: Plan, orders: map<Label, Order>,
                            live: map<Label, set<CFGUse>>, i: nat, rho: Rho, s: State, r: State)
    requires Setting(ps, ty, p, plan, orders, live) && Sound(ps, ty, p, live, s) && sem.codec == RuntimeRecords(lib)
    requires i < |plan.headers| && plan.headers[i] == s.at && i < WORD / 2 && s.at in orders && |orders[s.at]| < WORD
    requires AllSavable(lib, ps, ty, s.env, s.world, orders[s.at])
    requires AtCheckpoint(ps, p, plan.headers, ViewOf(ps, p, plan, live), rho, s, r)
    ensures CanBeSaved(sem, ps, ty, orders, s)
    ensures var next := Step(sem, Transformed(p, plan, live), r);
            && next.Some? && next.value.world.io.completed == r.world.io.completed + [CheckpointOfState(sem, ps, ty, orders, s, i)]
            && Accepted(lib, DirectoryOf(CheckpointOfState(sem, ps, ty, orders, s, i))) == Some((i, |orders[s.at]|))
  {
    SavableAtHeader(lib, sem, ps, ty, p, plan, orders, live, i, s);
    CheckpointWrites(sem, ps, ty, p, plan, orders, live, i, rho, s, r);
  }

  lemma SavableAtHeader(lib: Library, sem: Sem, ps: Pointers, ty: Types, p: Program, plan: Plan, orders: map<Label, Order>,
                        live: map<Label, set<CFGUse>>, i: nat, s: State)
    requires Setting(ps, ty, p, plan, orders, live) && Sound(ps, ty, p, live, s) && sem.codec == RuntimeRecords(lib)
    requires i < |plan.headers| && plan.headers[i] == s.at && i < WORD / 2 && s.at in orders && |orders[s.at]| < WORD
    requires AllSavable(lib, ps, ty, s.env, s.world, orders[s.at])
    ensures CanBeSaved(sem, ps, ty, orders, s)
    ensures Accepted(lib, Dir(Some(InfoFile(i, |orders[s.at]|)), CheckpointFiles(sem, ps, ty, orders, s)))
            == Some((i, |orders[s.at]|))
  {
    var owner :| SoundBy(ps, ty, p, live, owner, s);
    LiveGood(ps, ty, p, plan, orders, live, i, owner, s);
    AllSavableSurvive(lib, sem, ps, ty, owner, s.env, s.world, orders[s.at]);
    SavedDirectoryValid(lib, sem, ps, ty, owner, s.env, s.world, orders[s.at], i);
  }
}
