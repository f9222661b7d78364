/**
  The pass on one function, `addCheckpointsToFunction`, and what its result does.
 */
module Pass {
  import opened Streams
  import opened Records
  import opened Directory
  import opened Search
  import opened IR
  import opened Pointers
  import opened Paths
  import opened Runs
  import opened Cfg
  import opened UseDef
  import opened Renaming
  import opened Transform
  import opened Function
  import opened Closure
  import opened Analysis
  import opened Simulation
  import opened Rewriting
  import opened Locality
  import opened Emission
  import opened Plans
  import opened Typing
  import opened RuntimeCodec
  import opened Transparency
  import opened TrivialPhi
  import opened Cleaned
  import opened FixDominance
  import opened Insertion
  import opened Splitting
  import opened Prepared

  /** The function the pass is given, behind the splitting of blocks and the pointer analysis. */
  ghost predicate FunctionOk(ps: Pointers, ty: Types, p: Program) {
    && ps.Acyclic() && p.entry in p.blocks
    && forall k {:trigger InFunction(k)} :: InFunction(k) ==>
         && SSA(ps, p) && ProgramOk(p) && PhisExact(p) && NeedsDominate(ps, p) && KnownAliases(ps) && Typed(ps, ty, p)
         && SharedUsesLive(ps, p)
  }

  /** Marks where a proof looks inside `FunctionOk`. */
  ghost predicate InFunction(k: nat) { true }

  ghost predicate HeadersOk(p: Program, headers: seq<Label>) {
    && |headers| < 0xFFFF_FFFF_FFFF_FFFF
    && (forall h :: h in headers ==> h in p.blocks && h != p.entry && p.blocks[h].phis == map[])
    && forall i, j :: 0 <= i < j < |headers| ==> headers[i] != headers[j]
  }

  // ----- what analysis and splitting leave to assume -----

  /**
    A typed function that has been analysed and split is what the pass asks for, as soon as its values flow as they should:
    static single assignment with all that uses drag along, no cycle of aliases, and nothing lost to the order of use sets.
   */
  lemma PreparedIsOk(ps: Pointers, ty: Types, pointers: set<Value>, p: Program, tails: Tails, names: set<Value>, q: Program, t: Program)
    requires Prepares(ty, pointers, p, tails, names, ps.info, q, t)
    requires ps.Acyclic() && SSA(ps, t) && NeedsDominate(ps, t) && SharedUsesLive(ps, t)
    ensures FunctionOk(ps, ty, t)
  {
    PreparedIsTyped(ps, ty, pointers, p, tails, names, q, t);
  }

  /** The blocks behind the phis of headers are headers the pass can take. */
  lemma HeadersBehindOk(q: Program, tails: Tails, t: Program, headers: seq<Label>)
    requires TailsOk(q, tails) && PhisOld(q) && IsSplit(q, tails, t) && q.entry in q.blocks && |headers| < 0xFFFF_FFFF_FFFF_FFFF
    requires forall h :: h in headers ==> h in q.blocks && h != q.entry
    requires forall i, j :: 0 <= i < j < |headers| ==> headers[i] != headers[j]
    ensures HeadersOk(t, HeadersBehind(tails, headers)) && |HeadersBehind(tails, headers)| == |headers|
    ensures forall i :: 0 <= i < |headers| ==>
              HeadersBehind(tails, headers)[i] == if headers[i] in tails then tails[headers[i]] else headers[i]
  {
    var behind := HeadersBehind(tails, headers);
    forall h | h in behind ensures h in t.blocks && h != t.entry && t.blocks[h].phis == map[] {
      var i :| 0 <= i < |headers| && behind[i] == h;
      assert headers[i] in headers;
      HeaderBehind(q, tails, t, headers[i]);
    }
    forall i, j | 0 <= i < j < |behind| ensures behind[i] != behind[j] {
      BehindApart(q, tails, headers, i, j);
    }
  }

  lemma BehindApart(q: Program, tails: Tails, headers: seq<Label>, i: nat, j: nat)
    requires TailsOk(q, tails) && i < j < |headers| && headers[i] != headers[j]
    requires forall h :: h in headers ==> h in q.blocks
    ensures TailOf(tails, headers[i]) != TailOf(tails, headers[j])
  {
    assert headers[i] in headers && headers[j] in headers;
    if TailOf(tails, headers[i]) == TailOf(tails, headers[j]) { TailsInjective(q, tails, headers[i], headers[j]); }
  }

  // ----- names of the function only -----

  lemma DefinedIsSource(p: Program, ps: Pointers, n: Label, v: Value)
    requires ps.Acyclic() && ProgramOk(p) && v in FlowOf(ps, p).Def(n)
    ensures v.Src?
  {
    BlockFlow(ps, p, n);
    assert BlockOk(p, p.blocks[n]);
  }

  lemma LiveIsSource(ps: Pointers, p: Program, n: Label, v: Value)
    requires SSA(ps, p) && ProgramOk(p) && n in p.blocks && LiveIn(FlowOf(ps, p), v, n)
    ensures v.Src?
  {
    var path := ShortWalk(FlowOf(ps, p), n);
    var i := DefinedOnWalk(FlowOf(ps, p), v, path);
    DefinedIsSource(p, ps, path[i], v);
  }

  lemma PhiNeedIsSource(ps: Pointers, p: Program, m: Label, n: Label, v: Value)
    requires SSA(ps, p) && ProgramOk(p) && PhisExact(p) && n in p.blocks && v in PhiNeeds(ps, p.blocks[n].phis, m)
    ensures v.Src?
  {
    assert IsEdge(p, m, n);
    EdgeOf(ps, p, m, n);
    BlockFlow(ps, p, m);
    if v in FlowOf(ps, p).Def(m) {
      DefinedIsSource(p, ps, m, v);
    } else {
      LiveBackwards(FlowOf(ps, p), v, m, n);
      LiveIsSource(ps, p, m, v);
    }
  }

  lemma LiveSetsSources(ps: Pointers, p: Program, live: map<Label, set<CFGUse>>, n: Label)
    requires SSA(ps, p) && ProgramOk(p) && PhisExact(p) && LiveOk(ps, p, live) && OwnUses(ps, p, live) && n in p.blocks
    ensures LiveSetOk(LiveAt(live, n))
  {
    forall u | u in live[n] ensures u.value.Src? {
      if u.useType.ANY? {
        AnyIsLive(ps, p, live, n, u.value);
        LiveIsSource(ps, p, n, u.value);
      } else {
        PhiNeedIsSource(ps, p, u.sourcePHIBlock.value, n, u.value);
      }
    }
  }

  lemma InsertedPhisSources(p: Program, plan: Plan, l: Label)
    requires ProgramOk(p) && l in AllLabels(p, plan)
    ensures SourceNames(InstrumentedBlock(p, plan, l).phis)
  {
    if l in p.blocks { assert BlockOk(p, p.blocks[l]); }
  }

  lemma NodeSources(ps: Pointers, p: Program, plan: Plan, live: map<Label, set<CFGUse>>, l: Label)
    requires SSA(ps, p) && ProgramOk(p) && PhisExact(p) && LiveOk(ps, p, live) && OwnUses(ps, p, live)
    requires PlanOk(p, plan) && l in AllLabels(p, plan)
    ensures LiveSetOk(NodeLive(live, l))
  {
    if l.Orig? {
      LiveSetsSources(ps, p, live, l);
    } else if l.Checkpoint? {
      HeaderOf(p, plan, l);
      LiveSetsSources(ps, p, live, Orig(l.id));
    }
  }

  /** The inserted nodes are fit for Steps 1 and 2. */
  lemma InsertedNodesOk(ps: Pointers, p: Program, plan: Plan, live: map<Label, set<CFGUse>>)
    requires SSA(ps, p) && ProgramOk(p) && PhisExact(p) && LiveOk(ps, p, live) && OwnUses(ps, p, live) && PlanOk(p, plan)
    ensures NodesOk(Instrumented(p, plan), NodesOf(p, plan, live))
  {
    forall l | l in Instrumented(p, plan).blocks
      ensures LiveSetOk(LiveAt(NodesOf(p, plan, live).live, l)) && SourceNames(Instrumented(p, plan).blocks[l].phis)
    {
      NodeAt(p, plan, live, l);
      FixedAt(p, plan, live, l);
      NodeSources(ps, p, plan, live, l);
      InsertedPhisSources(p, plan, l);
    }
  }

  // ----- the pass -----

  /** What the pass has made of a function with headers; `left` says what holds each value of the function on each edge. */
  ghost predicate Result(ps: Pointers, ty: Types, p: Program, headers: seq<Label>, t: Program, plan: Plan,
                         orders: map<Label, Order>, live: map<Label, set<CFGUse>>, left: Watch) {
    && plan.headers == headers && Setting(ps, ty, p, plan, orders, live)
    && WellFormed(t, left) && SameRuns(Transformed(p, plan, live), t, WatchOf(ps, p, plan, live), left)
    && forall b, x :: b in t.blocks && x in t.blocks[b].phis ==> !HasConstant(t.blocks[b].phis[x], x)
  }

  /** Liveness, the code of the inserted blocks, and that all of it fits together. */
  method PlanFunction(ps: Pointers, ty: Types, p: Program, headers: seq<Label>)
    returns (plan: Plan, live: map<Label, set<CFGUse>>, ghost orders: map<Label, Order>)
    requires FunctionOk(ps, ty, p) && HeadersOk(p, headers)
    ensures plan.headers == headers && Setting(ps, ty, p, plan, orders, live) && OwnUses(ps, p, live) && PhisExact(p)
    ensures WellFormed(Transformed(p, plan, live), WatchOf(ps, p, plan, live))
  {
    assert InFunction(0);
    live := LiveValues(ps, p);
    LiveHeadersClosed(ps, p, headers, live);
    plan, orders := FillBlocks(ps, ty, headers, live);
    SettingHolds(ps, ty, p, plan, orders, live);
  }

  lemma SettingHolds(ps: Pointers, ty: Types, p: Program, plan: Plan, orders: map<Label, Order>, live: map<Label, set<CFGUse>>)
    requires FunctionOk(ps, ty, p) && HeadersOk(p, plan.headers) && LiveOk(ps, p, live)
    requires Filled(ps, ty, plan, orders, live)
    ensures Setting(ps, ty, p, plan, orders, live)
    ensures WellFormed(Transformed(p, plan, live), WatchOf(ps, p, plan, live))
  {
    assert InFunction(0);
    FilledIsLocal(ps, ty, plan, orders, live);
    FilledRestores(ps, ty, plan, orders, live);
    assert PlanOk(p, plan);
    FilledWellFormed(ps, ty, p, plan, live);
  }

  lemma FilledWellFormed(ps: Pointers, ty: Types, p: Program, plan: Plan, live: map<Label, set<CFGUse>>)
    requires Given(ps, p, plan, live) && PhisExact(p) && EmittedLocal(plan, live) && RestoresHome(plan) && Typed(ps, ty, p)
    ensures WellFormed(Transformed(p, plan, live), WatchOf(ps, p, plan, live))
  {
    forall n | n in p.blocks ensures p.blocks[n].phis.Keys !! Dsts(p.blocks[n].body) {
      assert BlockTyped(ps, ty, p.blocks[n]);
    }
    TransformedWellFormed(ps, p, plan, live);
  }

  /** What the methods that rewrite the blocks ask for. */
  lemma RewriteReady(ps: Pointers, ty: Types, p: Program, plan: Plan, orders: map<Label, Order>, live: map<Label, set<CFGUse>>)
    requires Setting(ps, ty, p, plan, orders, live) && OwnUses(ps, p, live) && PhisExact(p)
    ensures Insertable(p, plan.headers) && NodesOk(Instrumented(p, plan), NodesOf(p, plan, live))
    ensures forall i, j :: 0 <= i < j < |plan.headers| ==> plan.headers[i] != plan.headers[j]
  {
    assert InSetting(0) && InGiven(0);
    InsertedNodesOk(ps, p, plan, live);
  }

  /** `createCheckpointAndRestartBlocksForNode`, `insertRestartBlock`, the filled blocks, and `fixDominance`. */
  method RewriteFunction(ps: Pointers, ghost ty: Types, p: Program, plan: Plan, ghost orders: map<Label, Order>,
                         live: map<Label, set<CFGUse>>)
    returns (t: Program)
    requires Setting(ps, ty, p, plan, orders, live) && OwnUses(ps, p, live) && PhisExact(p)
    requires WellFormed(Transformed(p, plan, live), WatchOf(ps, p, plan, live))
    ensures exists left :: Result(ps, ty, p, plan.headers, t, plan, orders, live, left)
  {
    RewriteReady(ps, ty, p, plan, orders, live);
    var q := Instrument(p, plan);
    var body := new CFGFunctionBody(q, NodesOf(p, plan, live));
    body.FixOperands();
    ghost var left;
    t, left := RemoveTrivialPhis(Program(body.blocks, q.entry, q.args), WatchOf(ps, p, plan, live));
    assert Result(ps, ty, p, plan.headers, t, plan, orders, live, left);
  }

  /** `t` is what the pass makes of the function. */
  ghost predicate Made(ps: Pointers, ty: Types, p: Program, headers: seq<Label>, t: Program) {
    exists plan, orders, live, left :: Result(ps, ty, p, headers, t, plan, orders, live, left)
  }

  method AddCheckpointsToFunction(ps: Pointers, ty: Types, p: Program, headers: seq<Label>) returns (t: Program)
    requires FunctionOk(ps, ty, p) && HeadersOk(p, headers)
    ensures if headers == [] then t == p else Made(ps, ty, p, headers, t)
  {
    if headers == [] {
      return p;
    }
    var plan, live;
    ghost var orders;
    plan, live, orders := PlanFunction(ps, ty, p, headers);
    t := RewriteFunction(ps, ty, p, plan, orders, live);
  }

  // ----- what the result does -----

  /**
    The two functions are about to enter the same block: the memory is the same under the renaming, which covers every live
    pointer, and each value the function needs has an operand of the result that holds it.
   */
  ghost predicate Holds(ps: Pointers, p: Program, live: map<Label, set<CFGUse>>, left: Watch, rho: Rho, s: State, r: State)
    requires ps.Acyclic()
  {
    && IsEdge(p, s.pred, s.at) && r.at == s.at && SameMemory(rho, s.world, r.world)
    && forall v :: v in EdgeValues(ps, p, live, s.pred, s.at) ==>
         (r.pred, r.at, v) in left && Same(rho, Get(s.env, v), Eval(r.env, left[(r.pred, r.at, v)]))
  }

  /** Both runs have ended, or have come to the same block with the same values; if it returns, both return the same. */
  ghost predicate EndAlike(sem: Sem, ps: Pointers, p: Program, live: map<Label, set<CFGUse>>, t: Program, left: Watch, rho: Rho,
                           s: Option<State>, r: Option<State>)
    requires ps.Acyclic()
  {
    && (if s.None? then r.None? else r.Some? && Holds(ps, p, live, left, rho, s.value, r.value))
    && ReturnTogether(sem, p, t, rho, s, r)
  }

  /** The same of the function before trivial phis are removed. */
  ghost predicate Matched(sem: Sem, ps: Pointers, p: Program, plan: Plan, live: map<Label, set<CFGUse>>, rho: Rho,
                          s: Option<State>, r: Option<State>)
  {
    && ps.Acyclic() && p.entry in p.blocks
    && forall k {:trigger InMatched(k)} :: InMatched(k) ==>
         && EndTogether(MatchesBy(ps, p, plan.headers, ViewOf(ps, p, plan, live)), rho, s, r)
         && ReturnTogether(sem, p, Transformed(p, plan, live), rho, s, r)
  }

  /** Marks where a proof looks inside `Matched`. */
  ghost predicate InMatched(k: nat) { true }

  /** Without trivial phis the result shows the same blocks and ends at the same time. */
  lemma SameShown(sem: Sem, t: Program, u: Program, seen: Watch, left: Watch, s: State, k: nat)
    requires SameRuns(t, u, seen, left) && s.at == t.entry
    ensures Visible(Steps(sem, u), s, k) == Visible(Steps(sem, t), s, k)
    ensures BothLike(AlikeBy(sem, t, u, seen, left), Run(Steps(sem, t), s, k), Run(Steps(sem, u), s, k))
  {
    assert AlikeFrom(sem, t, u, seen, left, s, k);
    VisibleIsOriginals(Steps(sem, t), s, k);
    VisibleIsOriginals(Steps(sem, u), s, k);
  }

  lemma StandsInFor(p: Program, headers: seq<Label>, m: Label, n: Label, pred: Label)
    requires StandsFor(p, headers, m, n, pred)
    ensures pred in StandIns(p, headers, m, n)
  {
  }

  /** What is watched holds the values of the function. */
  lemma MatchHolds(sem: Sem, ps: Pointers, p: Program, plan: Plan, live: map<Label, set<CFGUse>>, t: Program, left: Watch, rho: Rho,
                   s: State, a: State, c: State)
    requires ps.Acyclic() && p.entry in p.blocks && Matches(ps, p, plan.headers, ViewOf(ps, p, plan, live), rho, s, a)
    requires Alike(sem, Transformed(p, plan, live), t, WatchOf(ps, p, plan, live), left, a, c)
    ensures Holds(ps, p, live, left, rho, s, c)
  {
    var watch := WatchOf(ps, p, plan, live);
    StandsInFor(p, plan.headers, s.pred, s.at, a.pred);
    SameEdgeValues(ps, p, plan, live, s.pred, s.at);
    forall v | v in EdgeValues(ps, p, live, s.pred, s.at)
      ensures (c.pred, c.at, v) in left && Same(rho, Get(s.env, v), Eval(c.env, left[(c.pred, c.at, v)]))
    {
      WatchAt(ps, p, plan, live, s.pred, s.at, v, a.pred);
      assert (a.pred, a.at, v) in watch && Eval(a.env, watch[(a.pred, a.at, v)]) == Get(a.env, ViewOf(ps, p, plan, live).name(a.pred, v));
    }
  }

  lemma WithoutPhisAlike(sem: Sem, ps: Pointers, p: Program, plan: Plan, live: map<Label, set<CFGUse>>, t: Program, left: Watch, rho: Rho,
                         s: Option<State>, r: Option<State>, c: Option<State>)
    requires Matched(sem, ps, p, plan, live, rho, s, r)
    requires BothLike(AlikeBy(sem, Transformed(p, plan, live), t, WatchOf(ps, p, plan, live), left), r, c)
    ensures EndAlike(sem, ps, p, live, t, left, rho, s, c)
  {
    assert InMatched(0);
    if s.Some? { MatchHolds(sem, ps, p, plan, live, t, left, rho, s.value, r.value, c.value); }
  }

  /** The same blocks and the same end without the trivial phis. */
  lemma ShownWithoutPhis(sem: Sem, ps: Pointers, p: Program, plan: Plan, live: map<Label, set<CFGUse>>, t: Program, left: Watch,
                         rho: Rho, s: Option<State>, r: State, shown: seq<Label>, j: nat)
    requires p.entry in p.blocks && r.at == p.entry
    requires ps.Acyclic() && SameRuns(Transformed(p, plan, live), t, WatchOf(ps, p, plan, live), left)
    requires Visible(Steps(sem, Transformed(p, plan, live)), r, j) == shown
    requires Matched(sem, ps, p, plan, live, rho, s, Run(Steps(sem, Transformed(p, plan, live)), r, j))
    ensures Visible(Steps(sem, t), r, j) == shown && EndAlike(sem, ps, p, live, t, left, rho, s, Run(Steps(sem, t), r, j))
  {
    var u := Transformed(p, plan, live);
    SameShown(sem, u, t, WatchOf(ps, p, plan, live), left, r, j);
    WithoutPhisAlike(sem, ps, p, plan, live, t, left, rho, s, Run(Steps(sem, u), r, j), Run(Steps(sem, t), r, j));
  }

  /**
    Run from the beginning, the result goes through the blocks of the function with the same values, goes on as long as it
    does, and returns what it returns.
   */
  lemma ResultRuns(sem: Sem, ps: Pointers, ty: Types, p: Program, headers: seq<Label>, t: Program, plan: Plan,
                   orders: map<Label, Order>, live: map<Label, set<CFGUse>>, left: Watch,
                   rho: Rho, s: State, r: State, k: nat) returns (j: nat, more: Rho)
    requires Result(ps, ty, p, headers, t, plan, orders, live, left) && Starts(p, rho, s, r) && k > 0
    ensures Extends(rho, more) && k <= j
    ensures Visible(Steps(sem, t), r, j) == Trace(Steps(sem, p), s, k)
    ensures EndAlike(sem, ps, p, live, t, left, more, Run(Steps(sem, p), s, k), Run(Steps(sem, t), r, j))
  {
    assert InSetting(0);
    j, more := WholeRun(sem, ps, p, plan, live, rho, s, r, k);
    ShownWithoutPhis(sem, ps, p, plan, live, t, left, more, Run(Steps(sem, p), s, k), r, Trace(Steps(sem, p), s, k), j);
  }

  /** When the entry block of the function returns, the result returns the same behind its switch. */
  lemma ResultReturnsAtOnce(sem: Sem, ps: Pointers, ty: Types, p: Program, headers: seq<Label>, t: Program, plan: Plan,
                            orders: map<Label, Order>, live: map<Label, set<CFGUse>>, left: Watch, rho: Rho, s: State, r: State)
    returns (j: nat, more: Rho)
    requires Result(ps, ty, p, headers, t, plan, orders, live, left) && Starts(p, rho, s, r)
    ensures Extends(rho, more) && Run(Steps(sem, t), r, j).Some?
    ensures ReturnsAlike(more, Returned(sem, p, s), Returned(sem, t, Run(Steps(sem, t), r, j).value))
  {
    assert InSetting(0);
    more := EntryReturns(sem, ps, p, plan, live, rho, s, r);
    j := ReturnsWithoutPhis(sem, Transformed(p, plan, live), t, WatchOf(ps, p, plan, live), left, r);
  }

  lemma ReturnsWithoutPhis(sem: Sem, u: Program, t: Program, seen: Watch, left: Watch, r: State) returns (j: nat)
    requires SameRuns(u, t, seen, left) && r.at == u.entry && Step(sem, u, r).Some?
    ensures Run(Steps(sem, t), r, j).Some?
    ensures Returned(sem, t, Run(Steps(sem, t), r, j).value) == Returned(sem, u, Step(sem, u, r).value)
  {
    j := 1;
    assert Run(Steps(sem, u), Step(sem, u, r).value, 0) == Step(sem, u, r);
    SameShown(sem, u, t, seen, left, r, j);
  }

  // ----- its checkpoints -----

  /** Between two states the checkpoint of state `s` at header number `i` is completed, with a directory that validates. */
  ghost predicate Completes(lib: Library, sem: Sem, ps: Pointers, ty: Types, orders: map<Label, Order>, s: State, i: nat,
                            before: Option<State>, after: Option<State>) {
    && s.at in orders && before.Some? && after.Some?
    && after.value.world.io.completed == before.value.world.io.completed + [CheckpointOfState(sem, ps, ty, orders, s, i)]
    && Accepted(lib, DirectoryOf(CheckpointOfState(sem, ps, ty, orders, s, i))) == Some((i, |orders[s.at]|))
  }

  /** The function is at header number `i` with a state the runtime can save. */
  ghost predicate AtHeader(lib: Library, ps: Pointers, ty: Types, headers: seq<Label>, orders: map<Label, Order>, s: State, i: nat) {
    && i < |headers| && headers[i] == s.at && i < WORD / 2 && s.at in orders && |orders[s.at]| < WORD
    && AllSavable(lib, ps, ty, s.env, s.world, orders[s.at])
  }

  lemma WaitsAt(ps: Pointers, p: Program, headers: seq<Label>, view: View, rho: Rho, s: State, r: State)
    requires ps.Acyclic() && WaitingBy(ps, p, headers, view)(rho, s, r)
    ensures AtCheckpoint(ps, p, headers, view, rho, s, r)
  {
  }

  lemma CheckpointHeld(lib: Library, sem: Sem, ps: Pointers, ty: Types, p: Program, plan: Plan, orders: map<Label, Order>,
                       live: map<Label, set<CFGUse>>, rho: Rho, s: State, at: State, i: nat)
    requires Setting(ps, ty, p, plan, orders, live) && Sound(ps, ty, p, live, s) && sem.codec == RuntimeRecords(lib)
    requires AtHeader(lib, ps, ty, plan.headers, orders, s, i)
    requires WaitingBy(ps, p, plan.headers, ViewOf(ps, p, plan, live))(rho, s, at)
    ensures CanBeSaved(sem, ps, ty, orders, s)
    ensures Completes(lib, sem, ps, ty, orders, s, i, Some(at), Steps(sem, Transformed(p, plan, live))(at))
  {
    WaitsAt(ps, p, plan.headers, ViewOf(ps, p, plan, live), rho, s, at);
    CheckpointValidates(lib, sem, ps, ty, p, plan, orders, live, i, rho, s, at);
  }

  /** From the checkpoint block on which a run has come without trivial phis removed, to what the result leaves. */
  lemma CheckpointLeft(lib: Library, sem: Sem, ps: Pointers, ty: Types, p: Program, headers: seq<Label>, t: Program, plan: Plan,
                       orders: map<Label, Order>, live: map<Label, set<CFGUse>>, left: Watch, rho: Rho, s: State, r: State, n: nat, i: nat)
    returns (j: nat)
    requires Result(ps, ty, p, headers, t, plan, orders, live, left) && r.at == p.entry
    requires Sound(ps, ty, p, live, s) && sem.codec == RuntimeRecords(lib) && AtHeader(lib, ps, ty, headers, orders, s, i)
    requires var at := Run(Steps(sem, Transformed(p, plan, live)), r, n);
             at.Some? && WaitingBy(ps, p, plan.headers, ViewOf(ps, p, plan, live))(rho, s, at.value)
    ensures CanBeSaved(sem, ps, ty, orders, s)
    ensures Completes(lib, sem, ps, ty, orders, s, i, Run(Steps(sem, t), r, j), Run(Steps(sem, t), r, j + 1))
  {
    var u := Transformed(p, plan, live);
    CheckpointHeld(lib, sem, ps, ty, p, plan, orders, live, rho, s, Run(Steps(sem, u), r, n).value, i);
    j := n;
    AfterOne(Steps(sem, u), r, n);
    SameShown(sem, u, t, WatchOf(ps, p, plan, live), left, r, n);
    SameWorld(sem, u, t, WatchOf(ps, p, plan, live), left, Run(Steps(sem, u), r, n), Run(Steps(sem, t), r, n));
    SameShown(sem, u, t, WatchOf(ps, p, plan, live), left, r, n + 1);
    SameWorld(sem, u, t, WatchOf(ps, p, plan, live), left, Run(Steps(sem, u), r, n + 1), Run(Steps(sem, t), r, n + 1));
  }

  lemma SameWorld(sem: Sem, t: Program, u: Program, seen: Watch, left: Watch, r: Option<State>, c: Option<State>)
    requires BothLike(AlikeBy(sem, t, u, seen, left), r, c) && r.Some?
    ensures c.Some? && c.value.world == r.value.world
  {
  }

  /** Whenever the function comes to a header, the result comes to leave a checkpoint of its state that validates. */
  lemma ResultCheckpoints(lib: Library, sem: Sem, ps: Pointers, ty: Types, p: Program, headers: seq<Label>, t: Program, plan: Plan,
                          orders: map<Label, Order>, live: map<Label, set<CFGUse>>, left: Watch,
                          rho: Rho, s0: State, s: State, r: State, k: nat, i: nat) returns (j: nat)
    requires Result(ps, ty, p, headers, t, plan, orders, live, left) && Starts(p, rho, s0, r) && k > 0
    requires Sound(ps, ty, p, live, s0) && sem.codec == RuntimeRecords(lib)
    requires Run(Steps(sem, p), s0, k) == Some(s) && AtHeader(lib, ps, ty, headers, orders, s, i)
    ensures CanBeSaved(sem, ps, ty, orders, s)
    ensures Completes(lib, sem, ps, ty, orders, s, i, Run(Steps(sem, t), r, j), Run(Steps(sem, t), r, j + 1))
  {
    assert InSetting(0);
    SoundRun(sem, ps, ty, p, live, s0, k);
    var n, more := ReachesCheckpoint(sem, ps, p, plan, live, rho, s0, r, k);
    j := CheckpointLeft(lib, sem, ps, ty, p, headers, t, plan, orders, live, left, more, s, r, n, i);
  }

  // ----- its restarts -----

  /** Behind `c` blocks, the switch and the restart block, the run has come to the header. */
  lemma TransformedResumes(sem: Sem, ps: Pointers, ty: Types, p: Program, plan: Plan, orders: map<Label, Order>,
                           live: map<Label, set<CFGUse>>, i: nat, s: State, q: State, k: nat)
    returns (c: nat, start: Rho, n: nat, rho: Rho)
    requires Setting(ps, ty, p, plan, orders, live) && Sound(ps, ty, p, live, s)
    requires i < |plan.headers| && plan.headers[i] == s.at && CanBeSaved(sem, ps, ty, orders, s)
    requires Resumes(p, q, i, CheckpointFiles(sem, ps, ty, orders, s))
    ensures Extends(start, rho) && k <= n
    ensures var f, g := Steps(sem, p), Steps(sem, Transformed(p, plan, live));
            && Run(g, q, c).Some? && Visible(g, q, c) == [p.entry] && Visible(g, Run(g, q, c).value, n) == Trace(f, s, k)
            && MatchesBy(ps, p, plan.headers, ViewOf(ps, p, plan, live))(start, s, Run(g, q, c).value)
            && RestartIsOver(Run(g, q, c).value.world.io)
            && Matched(sem, ps, p, plan, live, rho, Run(f, s, k), Run(g, Run(g, q, c).value, n))
  {
    start, n, rho := RestartIsTransparent(sem, ps, ty, p, plan, orders, live, i, s, q, k);
    c := 2;
  }

  /** The run behind the restart block, seen from the entry. */
  lemma FromTheEntry(g: Stepper, entry: Label, q: State, c: nat, n: nat) returns (j: nat)
    requires Run(g, q, c).Some? && Visible(g, q, c) == [entry]
    ensures Visible(g, q, j) == [entry] + Visible(g, Run(g, q, c).value, n)
    ensures Run(g, q, j) == Run(g, Run(g, q, c).value, n) && j == c + n
  {
    VisibleSplit(g, q, c, n);
    j := c + n;
  }

  lemma TransformedRestarts(sem: Sem, ps: Pointers, ty: Types, p: Program, plan: Plan, orders: map<Label, Order>,
                            live: map<Label, set<CFGUse>>, i: nat, s: State, q: State, k: nat)
    returns (c: nat, start: Rho, j: nat, rho: Rho)
    requires Setting(ps, ty, p, plan, orders, live) && Sound(ps, ty, p, live, s)
    requires i < |plan.headers| && plan.headers[i] == s.at && CanBeSaved(sem, ps, ty, orders, s)
    requires Resumes(p, q, i, CheckpointFiles(sem, ps, ty, orders, s))
    ensures Extends(start, rho) && c + k <= j
    ensures var g := Steps(sem, Transformed(p, plan, live));
            && Run(g, q, c).Some? && Visible(g, q, c) == [p.entry]
            && MatchesBy(ps, p, plan.headers, ViewOf(ps, p, plan, live))(start, s, Run(g, q, c).value)
            && RestartIsOver(Run(g, q, c).value.world.io)
            && Visible(g, q, j) == [p.entry] + Trace(Steps(sem, p), s, k)
            && Matched(sem, ps, p, plan, live, rho, Run(Steps(sem, p), s, k), Run(g, q, j))
  {
    var n;
    c, start, n, rho := TransformedResumes(sem, ps, ty, p, plan, orders, live, i, s, q, k);
    j := FromTheEntry(Steps(sem, Transformed(p, plan, live)), p.entry, q, c, n);
  }

  lemma RestartedHolds(sem: Sem, ps: Pointers, p: Program, plan: Plan, live: map<Label, set<CFGUse>>, t: Program, left: Watch,
                       start: Rho, s: State, q: State, c: nat)
    requires ps.Acyclic() && p.entry in p.blocks && q.at == p.entry
    requires SameRuns(Transformed(p, plan, live), t, WatchOf(ps, p, plan, live), left)
    requires var r := Run(Steps(sem, Transformed(p, plan, live)), q, c);
             && r.Some? && MatchesBy(ps, p, plan.headers, ViewOf(ps, p, plan, live))(start, s, r.value)
             && RestartIsOver(r.value.world.io)
    ensures Visible(Steps(sem, t), q, c) == Visible(Steps(sem, Transformed(p, plan, live)), q, c)
    ensures Run(Steps(sem, t), q, c).Some? && Holds(ps, p, live, left, start, s, Run(Steps(sem, t), q, c).value)
    ensures RestartIsOver(Run(Steps(sem, t), q, c).value.world.io)
  {
    var u := Transformed(p, plan, live);
    SameShown(sem, u, t, WatchOf(ps, p, plan, live), left, q, c);
    SameWorld(sem, u, t, WatchOf(ps, p, plan, live), left, Run(Steps(sem, u), q, c), Run(Steps(sem, t), q, c));
    MatchHolds(sem, ps, p, plan, live, t, left, start, s, Run(Steps(sem, u), q, c).value, Run(Steps(sem, t), q, c).value);
  }

  /**
    The result is transparent to restarts: a process that resumes from that checkpoint comes to the header with the values
    that were saved, and from there goes through the blocks the function would have gone through, with the same values, goes
    on as long as it would have, and returns what it would have returned.
   */
  lemma ResultRestarts(sem: Sem, ps: Pointers, ty: Types, p: Program, headers: seq<Label>, t: Program, plan: Plan,
                       orders: map<Label, Order>, live: map<Label, set<CFGUse>>, left: Watch,
                       i: nat, s: State, q: State, k: nat) returns (c: nat, start: Rho, j: nat, rho: Rho)
    requires Result(ps, ty, p, headers, t, plan, orders, live, left) && Sound(ps, ty, p, live, s)
    requires i < |headers| && headers[i] == s.at && CanBeSaved(sem, ps, ty, orders, s)
    requires Resumes(p, q, i, CheckpointFiles(sem, ps, ty, orders, s))
    ensures Run(Steps(sem, t), q, c).Some? && Holds(ps, p, live, left, start, s, Run(Steps(sem, t), q, c).value)
    ensures RestartIsOver(Run(Steps(sem, t), q, c).value.world.io)
    ensures Visible(Steps(sem, t), q, c) == [p.entry]
    ensures Extends(start, rho) && c + k <= j
    ensures Visible(Steps(sem, t), q, j) == [p.entry] + Trace(Steps(sem, p), s, k)
    ensures EndAlike(sem, ps, p, live, t, left, rho, Run(Steps(sem, p), s, k), Run(Steps(sem, t), q, j))
  {
    c, start, j, rho := TransformedRestarts(sem, ps, ty, p, plan, orders, live, i, s, q, k);
    RestartedHolds(sem, ps, p, plan, live, t, left, start, s, q, c);
    ShownWithoutPhis(sem, ps, p, plan, live, t, left, rho, Run(Steps(sem, p), s, k), q, [p.entry] + Trace(Steps(sem, p), s, k), j);
  }

  // ----- the checkpoints of a restarted process -----

  lemma TransformedAgain(sem: Sem, ps: Pointers, ty: Types, p: Program, plan: Plan, orders: map<Label, Order>,
                         live: map<Label, set<CFGUse>>, i0: nat, s0: State, s: State, q: State, k: nat)
    returns (n: nat, more: Rho)
    requires Setting(ps, ty, p, plan, orders, live) && Sound(ps, ty, p, live, s0) && k > 0
    requires i0 < |plan.headers| && plan.headers[i0] == s0.at && CanBeSaved(sem, ps, ty, orders, s0)
    requires Resumes(p, q, i0, CheckpointFiles(sem, ps, ty, orders, s0))
    requires Run(Steps(sem, p), s0, k) == Some(s) && s.at in plan.headers
    ensures var at := Run(Steps(sem, Transformed(p, plan, live)), q, n);
            at.Some? && WaitingBy(ps, p, plan.headers, ViewOf(ps, p, plan, live))(more, s, at.value)
  {
    assert InSetting(0);
    var c, start, n0, _ := TransformedResumes(sem, ps, ty, p, plan, orders, live, i0, s0, q, k);
    var g := Steps(sem, Transformed(p, plan, live));
    n, more := ReachesCheckpointAgain(sem, ps, p, plan, live, start, s0, Run(g, q, c).value, k);
    n := FromTheEntry(g, p.entry, q, c, n);
  }

  /** A process that has been restarted leaves such checkpoints as well, whenever the function comes to a header again. */
  lemma ResultCheckpointsAgain(lib: Library, sem: Sem, ps: Pointers, ty: Types, p: Program, headers: seq<Label>, t: Program,
                               plan: Plan, orders: map<Label, Order>, live: map<Label, set<CFGUse>>, left: Watch,
                               i0: nat, s0: State, s: State, q: State, k: nat, i: nat) returns (j: nat)
    requires Result(ps, ty, p, headers, t, plan, orders, live, left) && k > 0
    requires Sound(ps, ty, p, live, s0) && sem.codec == RuntimeRecords(lib)
    requires i0 < |headers| && headers[i0] == s0.at && CanBeSaved(sem, ps, ty, orders, s0)
    requires Resumes(p, q, i0, CheckpointFiles(sem, ps, ty, orders, s0))
    requires Run(Steps(sem, p), s0, k) == Some(s) && AtHeader(lib, ps, ty, headers, orders, s, i)
    ensures CanBeSaved(sem, ps, ty, orders, s)
    ensures Completes(lib, sem, ps, ty, orders, s, i, Run(Steps(sem, t), q, j), Run(Steps(sem, t), q, j + 1))
  {
    assert InSetting(0);
    SoundRun(sem, ps, ty, p, live, s0, k);
    var n, more := TransformedAgain(sem, ps, ty, p, plan, orders, live, i0, s0, s, q, k);
    j := CheckpointLeft(lib, sem, ps, ty, p, headers, t, plan, orders, live, left, more, s, q, n, i);
  }

  function LastCompleted(r: State): Attempted
    requires r.world.io.completed != []
  {
    r.world.io.completed[|r.world.io.completed| - 1]
  }

  /** Where that checkpoint is the newest that validates, the search answers with the label its restart block has. */
  lemma SearchAnswers(lib: Library, sem: Sem, ps: Pointers, ty: Types, orders: map<Label, Order>, s: State, i: nat,
                      before: Option<State>, after: Option<State>, fs: Listing, epoch: nat, number: nat, e: nat, n: nat)
    requires Completes(lib, sem, ps, ty, orders, s, i, before, after)
    requires Newest(ValidatorVerdicts(lib), fs, epoch, number) && fs.dirs[(epoch, number)] == DirectoryOf(LastCompleted(after.value))
    requires Newest(ValidatorVerdicts(lib), fs, e, n)
    ensures ValidatorVerdicts(lib)(fs.dirs[(e, n)]) == Some((i, |orders[s.at]|))
    ensures fs.dirs[(e, n)].bodies == CheckpointFiles(sem, ps, ty, orders, s)
  {
    NewestIsUnique(ValidatorVerdicts(lib), fs, e, n, epoch, number);
  }
}
