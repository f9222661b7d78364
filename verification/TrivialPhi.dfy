/**
  Step 3 of `fixDominance`: a phi that merges one value only is replaced by that value.
 */
module TrivialPhi {
  import opened Records
  import opened IR
  import opened Paths
  import opened Runs
  import opened UseDef
  import opened Simulation
  import opened Locality

  // ----- the function as it stands -----

  function EdgeUses(phis: map<Value, Incoming>, pred: Label): set<Value> {
    set x | x in phis && pred in phis[x] && phis[x][pred].Use? :: phis[x][pred].v
  }

  function DirectUses(b: Block, args: set<Value>): set<Value> {
    Outside(b.body, b.term) - b.phis.Keys - args
  }

  /**
    Operands looked at on an edge, one for each value of interest: what holds the value there, now and when phis have been
    replaced.
   */
  type Watch = map<(Label, Label, Value), Operand>

  function WatchUses(watch: Watch, m: Label, n: Label): set<Value> {
    set k | k in watch && k.0 == m && k.1 == n && watch[k].Use? :: watch[k].v
  }

  function DirectEdges(t: Program, watch: Watch): map<(Label, Label), set<Value>> {
    map m, n | m in t.blocks && n in t.blocks :: (m, n) := EdgeUses(t.blocks[n].phis, m) + WatchUses(watch, m, n)
  }

  /** The flow graph with the operands alone as uses, those that are watched among them. */
  function DirectFlow(t: Program, watch: Watch): Flow {
    Flow(
      t.entry,
      map n | n in t.blocks :: TermTargets(t.blocks[n].term),
      map n | n in t.blocks :: BlockDefs(t.blocks[n], ArgsAt(t, n)),
      map n | n in t.blocks :: DirectUses(t.blocks[n], ArgsAt(t, n)),
      DirectEdges(t, watch))
  }

  lemma DirectBlock(t: Program, watch: Watch, n: Label)
    requires n in t.blocks
    ensures var f := DirectFlow(t, watch);
            && f.entry == t.entry
            && f.Succ(n) == TermTargets(t.blocks[n].term)
            && f.Def(n) == BlockDefs(t.blocks[n], ArgsAt(t, n))
            && f.Use(n) == DirectUses(t.blocks[n], ArgsAt(t, n))
  {
  }

  lemma DirectEdge(t: Program, watch: Watch, m: Label, n: Label)
    requires m in t.blocks && n in t.blocks
    ensures DirectFlow(t, watch).Edge(m, n) == EdgeUses(t.blocks[n].phis, m) + WatchUses(watch, m, n)
  {
  }

  ghost predicate Complete(t: Program) {
    forall m, n, x :: IsEdge(t, m, n) && x in t.blocks[n].phis ==> m in t.blocks[n].phis[x]
  }

  ghost predicate BlocksOk(t: Program, watch: Watch) {
    && t.entry in t.blocks && t.blocks[t.entry].phis == map[]
    && (forall n :: n in t.blocks ==> TermTargets(t.blocks[n].term) <= t.blocks.Keys)
    && (forall n :: n in t.blocks ==> t.blocks[n].phis.Keys !! Dsts(t.blocks[n].body))
    && Complete(t) && (forall k :: k in watch ==> k.1 in t.blocks && k.1 != t.entry)
  }

  /** Every definition comes before its uses, once; phis have an operand for every edge. */
  ghost predicate WellFormed(t: Program, watch: Watch) {
    forall k {:trigger InWellFormed(k)} :: InWellFormed(k) ==>
      BlocksOk(t, watch) && Strict(DirectFlow(t, watch)) && SingleDef(DirectFlow(t, watch))
  }

  /** Marks where a proof looks inside `WellFormed`. */
  ghost predicate InWellFormed(k: nat) { true }

  // ----- constant phis -----

  /** All operands of phi `x` are `o` or `x` itself; with nothing but itself the value is undefined, here 0. */
  predicate Constant(inc: Incoming, x: Value, o: Operand) {
    && o != Use(x)
    && (forall m :: m in inc ==> inc[m] == o || inc[m] == Use(x))
    && (o in inc.Values || (o == Const(0) && forall m :: m in inc ==> inc[m] == Use(x)))
  }

  /** `PHINode::hasConstantValue` */
  method HasConstantValue(inc: Incoming, x: Value) returns (value: Option<Operand>)
    ensures value.Some? ==> Constant(inc, x, value.value)
    ensures value.None? ==> forall o :: !Constant(inc, x, o)
  {
    var constant := Use(x);
    var todo := inc.Keys;
    while todo != {}
      invariant todo <= inc.Keys
      invariant forall m :: m in inc && m !in todo ==> inc[m] == constant || inc[m] == Use(x)
      invariant constant == Use(x) || constant in inc.Values
      decreases todo
    {
      var m :| m in todo;
      if inc[m] != constant && inc[m] != Use(x) {
        if constant != Use(x) {
          ghost var k :| k in inc && inc[k] == constant;
          TwoValues(inc, x, k, m);
          return None;
        }
        constant := inc[m];
      }
      todo := todo - {m};
    }
    value := Some(if constant == Use(x) then Const(0) else constant);
  }

  lemma TwoValues(inc: Incoming, x: Value, k: Label, m: Label)
    requires k in inc && m in inc && inc[k] != inc[m] && inc[k] != Use(x) && inc[m] != Use(x)
    ensures forall o :: !Constant(inc, x, o)
  {
  }

  // ----- replacing and erasing -----

  function Replaced(x: Value, o: Operand, a: Operand): Operand {
    if a == Use(x) then o else a
  }

  function ReplacedArgs(x: Value, o: Operand, os: seq<Operand>): (r: seq<Operand>)
    ensures |r| == |os|
  {
    seq(|os|, i requires 0 <= i < |os| => Replaced(x, o, os[i]))
  }

  function ReplacedBody(x: Value, o: Operand, body: seq<Instr>): (r: seq<Instr>)
    ensures |r| == |body|
  {
    if body == [] then []
    else [body[0].(args := ReplacedArgs(x, o, body[0].args))] + ReplacedBody(x, o, body[1..])
  }

  function ReplacedIncoming(x: Value, o: Operand, inc: Incoming): Incoming {
    map m | m in inc :: Replaced(x, o, inc[m])
  }

  function ReplacedBlock(x: Value, o: Operand, b: Block): Block {
    Block(map y | y in b.phis && y != x :: ReplacedIncoming(x, o, b.phis[y]),
          ReplacedBody(x, o, b.body),
          b.term.(args := ReplacedArgs(x, o, b.term.args)))
  }

  /** `replaceAllUsesWith` and `eraseFromParent` */
  function WithoutPhi(t: Program, x: Value, o: Operand): Program {
    t.(blocks := map n | n in t.blocks :: ReplacedBlock(x, o, t.blocks[n]))
  }

  function ReplacedWatch(x: Value, o: Operand, watch: Watch): Watch {
    map k | k in watch :: Replaced(x, o, watch[k])
  }

  // ----- the value dominates the phi -----

  /** `x` is a phi of `b` that can be replaced by `o`. */
  ghost predicate Trivial(t: Program, b: Label, x: Value, o: Operand) {
    b in t.blocks && x in t.blocks[b].phis && Constant(t.blocks[b].phis[x], x, o)
  }

  /** What an edge of the function needs is defined on every walk that ends with it. */
  lemma DefinedBeforeEdge(f: Flow, path: Path, v: Value)
    requires Strict(f) && FromEntry(f, path) && |path| > 1 && v in f.Edge(path[|path| - 2], Last(path))
    ensures exists i :: 0 <= i < |path| - 1 && v in f.Def(path[i])
  {
    var before := path[..|path| - 1];
    var m := Last(before);
    assert path[(|path| - 2) + 1] in f.Succ(path[|path| - 2]);
    if v !in f.Def(m) {
      LiveBackwards(f, v, m, Last(path));
      var i := DefinedOnWalk(f, v, before);
    }
  }

  /** A walk over an edge that needs `x` has been in the block of `x`. */
  lemma BeenThere(f: Flow, b: Label, x: Value, path: Path) returns (j: nat)
    requires Strict(f) && SingleDef(f) && x in f.Def(b)
    requires FromEntry(f, path) && |path| > 1 && x in f.Edge(path[|path| - 2], Last(path))
    ensures j < |path| - 1 && path[j] == b && FromEntry(f, path[..j + 1]) && Last(path[..j + 1]) == b
  {
    DefinedBeforeEdge(f, path, x);
    j :| 0 <= j < |path| - 1 && x in f.Def(path[j]);
  }

  /** On every walk to its block, the value of a trivial phi has been defined in an earlier block. */
  lemma {:induction false} ValueBefore(t: Program, watch: Watch, b: Label, x: Value, v: Value, path: Path) returns (i: nat)
    requires WellFormed(t, watch) && Trivial(t, b, x, Use(v))
    requires FromEntry(DirectFlow(t, watch), path) && Last(path) == b
    ensures i < |path| - 1 && v in DirectFlow(t, watch).Def(path[i])
    decreases |path|
  {
    assert InWellFormed(0);
    var o := LastOperand(t, watch, b, x, path);
    if o == Use(x) {
      DirectBlock(t, watch, b);
      var j := BeenThere(DirectFlow(t, watch), b, x, path);
      i := ValueBefore(t, watch, b, x, v, path[..j + 1]);
    } else {
      DefinedBeforeEdge(DirectFlow(t, watch), path, v);
      i :| 0 <= i < |path| - 1 && v in DirectFlow(t, watch).Def(path[i]);
    }
  }

  /** The operand a phi takes at the end of a walk. */
  lemma LastOperand(t: Program, watch: Watch, b: Label, x: Value, path: Path) returns (o: Operand)
    requires WellFormed(t, watch) && b in t.blocks && x in t.blocks[b].phis
    requires FromEntry(DirectFlow(t, watch), path) && Last(path) == b
    ensures |path| > 1 && path[|path| - 2] in t.blocks[b].phis[x] && o == t.blocks[b].phis[x][path[|path| - 2]]
    ensures o.Use? ==> o.v in DirectFlow(t, watch).Edge(path[|path| - 2], b)
  {
    assert InWellFormed(0);
    assert |path| > 1;
    var m := path[|path| - 2];
    assert path[(|path| - 2) + 1] in DirectFlow(t, watch).Succ(m);
    EdgeOperand(t, watch, m, b, x);
    o := t.blocks[b].phis[x][m];
  }

  lemma EdgeOperand(t: Program, watch: Watch, m: Label, n: Label, x: Value)
    requires Complete(t) && n in t.blocks && x in t.blocks[n].phis && n in DirectFlow(t, watch).Succ(m)
    ensures m in t.blocks && m in t.blocks[n].phis[x]
    ensures t.blocks[n].phis[x][m].Use? ==> t.blocks[n].phis[x][m].v in DirectFlow(t, watch).Edge(m, n)
  {
    assert m in t.blocks;
    DirectBlock(t, watch, m);
    DirectEdge(t, watch, m, n);
    assert IsEdge(t, m, n);
  }

  lemma ValueDominates(t: Program, watch: Watch, b: Label, x: Value, v: Value)
    requires WellFormed(t, watch) && Trivial(t, b, x, Use(v))
    ensures Dominates(DirectFlow(t, watch), v, x)
  {
    assert InWellFormed(0);
    var f := DirectFlow(t, watch);
    forall path | FromEntry(f, path) && x in f.Def(Last(path))
      ensures exists i :: 0 <= i < |path| && v in f.Def(path[i])
    {
      DirectBlock(t, watch, b);
      assert Last(path) == b;
      var i := ValueBefore(t, watch, b, x, v, path);
    }
  }

  /** Where the phi is live or defined, its value is not defined. */
  lemma ValueKept(t: Program, watch: Watch, b: Label, x: Value, v: Value, n: Label)
    requires WellFormed(t, watch) && Trivial(t, b, x, Use(v)) && n in t.blocks && Reachable(DirectFlow(t, watch), n)
    requires n == b || LiveIn(DirectFlow(t, watch), x, n)
    ensures v !in DirectFlow(t, watch).Def(n)
  {
    assert InWellFormed(0);
    var f := DirectFlow(t, watch);
    if n == b {
      var path := ShortWalk(f, n);
      var i := ValueBefore(t, watch, b, x, v, path);
      assert path[i] in path[..|path| - 1];
    } else {
      ValueDominates(t, watch, b, x, v);
      NotRedefined(f, x, v, n);
    }
  }

  // ----- the same runs -----

  /** The two environments differ in `x` at most. */
  ghost predicate AgreeBut(x: Value, env: Env, renv: Env) {
    forall v :: v != x ==> Get(renv, v) == Get(env, v)
  }

  lemma ReplacedEval(x: Value, o: Operand, a: Operand, env: Env, renv: Env)
    requires AgreeBut(x, env, renv) && o != Use(x) && (a == Use(x) ==> Get(env, x) == Eval(env, o))
    ensures Eval(renv, Replaced(x, o, a)) == Eval(env, a)
  {
  }

  lemma ReplacedEvalAll(x: Value, o: Operand, os: seq<Operand>, env: Env, renv: Env)
    requires AgreeBut(x, env, renv) && o != Use(x) && (x in ArgUses(os) ==> Get(env, x) == Eval(env, o))
    ensures EvalAll(renv, ReplacedArgs(x, o, os)) == EvalAll(env, os)
  {
    forall i | 0 <= i < |os| ensures Eval(renv, ReplacedArgs(x, o, os)[i]) == Eval(env, os[i]) {
      assert os[i] in os;
      ReplacedEval(x, o, os[i], env, renv);
    }
  }

  /** What has to hold of `x` where it is used: it has the value of `o`, and the code defines neither. */
  ghost predicate Usable(x: Value, o: Operand, defs: set<Value>, env: Env) {
    Get(env, x) == Eval(env, o) && OperandUses(o) !! defs
  }

  lemma {:induction false} BodyReplaced(sem: Sem, x: Value, o: Operand, body: seq<Instr>, term: Term, env: Env, renv: Env, w: World)
    requires AgreeBut(x, env, renv) && o != Use(x) && x !in Dsts(body)
    requires x in Outside(body, term) ==> Usable(x, o, Dsts(body), env)
    ensures var (env', w') := RunBody(sem, body, env, w);
            var (renv', u') := RunBody(sem, ReplacedBody(x, o, body), renv, w);
            && u' == w' && AgreeBut(x, env', renv')
            && (x in ArgUses(term.args) ==> Get(env', x) == Eval(env', o))
            && (Usable(x, o, Dsts(body), env) ==> Get(env', x) == Eval(env', o))
    decreases |body|
  {
    if body != [] {
      var i, rest := body[0], body[1..];
      assert body == [i] + rest;
      DstsCons(i, rest);
      ReplacedEvalAll(x, o, i.args, env, renv);
      var (d, w1) := Exec(sem, i.op, EvalAll(env, i.args), w);
      AssignAgrees(x, o, i.dst, d, env, renv);
      assert ReplacedBody(x, o, body)[1..] == ReplacedBody(x, o, rest);
      BodyReplaced(sem, x, o, rest, term, Assign(env, i.dst, d), Assign(renv, i.dst, d), w1);
    }
  }

  lemma AssignAgrees(x: Value, o: Operand, dst: Option<Value>, d: Data, env: Env, renv: Env)
    requires AgreeBut(x, env, renv) && (dst.Some? ==> dst.value != x)
    ensures AgreeBut(x, Assign(env, dst, d), Assign(renv, dst, d))
    ensures (dst.Some? ==> dst.value !in OperandUses(o)) && Get(env, x) == Eval(env, o) ==>
              Get(Assign(env, dst, d), x) == Eval(Assign(env, dst, d), o)
  {
    forall v | v != x ensures Get(Assign(renv, dst, d), v) == Get(Assign(env, dst, d), v) {
      assert Get(renv, v) == Get(env, v);
    }
  }

  function PhisWithout(x: Value, o: Operand, phis: map<Value, Incoming>): map<Value, Incoming> {
    map y | y in phis && y != x :: ReplacedIncoming(x, o, phis[y])
  }

  lemma PhisReplaced(x: Value, o: Operand, phis: map<Value, Incoming>, pred: Label, env: Env, renv: Env)
    requires AgreeBut(x, env, renv) && o != Use(x) && forall y :: y in phis ==> pred in phis[y]
    requires x in EdgeUses(phis, pred) ==> Get(env, x) == Eval(env, o)
    ensures AgreeBut(x, RunPhis(phis, pred, env), RunPhis(PhisWithout(x, o, phis), pred, renv))
  {
    forall v | v != x
      ensures Get(RunPhis(PhisWithout(x, o, phis), pred, renv), v) == Get(RunPhis(phis, pred, env), v)
    {
      if v in phis {
        assert PhisWithout(x, o, phis)[v] == ReplacedIncoming(x, o, phis[v]);
        assert phis[v][pred] == Use(x) ==> x in EdgeUses(phis, pred);
        RunPhi(phis, v, pred, phis[v][pred], env);
        RunPhi(PhisWithout(x, o, phis), v, pred, Replaced(x, o, phis[v][pred]), renv);
        ReplacedEval(x, o, phis[v][pred], env, renv);
      } else {
        assert Get(renv, v) == Get(env, v);
      }
    }
  }

  /** Behind the phis of a block where `x` is defined or live, it has the value of `o`. */
  lemma ValueBehindPhis(x: Value, o: Operand, phis: map<Value, Incoming>, pred: Label, env: Env)
    requires OperandUses(o) !! phis.Keys && (x in phis ==> pred in phis[x])
    requires x in EdgeUses(phis, pred) || x !in phis ==> Get(env, x) == Eval(env, o)
    requires x in phis ==> phis[x][pred] == o || phis[x][pred] == Use(x)
    ensures Get(RunPhis(phis, pred, env), x) == Eval(RunPhis(phis, pred, env), o)
  {
  }

  /** Where a run is: at the entry or on an edge, and `x`, when it is live, has the value of `o`. */
  ghost predicate Tracked(t: Program, watch: Watch, x: Value, o: Operand, s: State) {
    var f := DirectFlow(t, watch);
    && s.at in t.blocks && Reachable(f, s.at) && (s.at == t.entry || IsEdge(t, s.pred, s.at))
    && (LiveEdge(f, x, s.pred, s.at) ==> Get(s.env, x) == Eval(s.env, o))
  }

  ghost predicate SameBut(x: Value, s: State, r: State) {
    r.pred == s.pred && r.at == s.at && r.world == s.world && AgreeBut(x, s.env, r.env)
  }

  ghost predicate StepsSame(t: Program, watch: Watch, x: Value, o: Operand, s: Option<State>, r: Option<State>) {
    if s.None? || r.None? then s.None? && r.None? else Tracked(t, watch, x, o, s.value) && SameBut(x, s.value, r.value)
  }

  /** The phi and its value around one block. */
  ghost predicate Around(t: Program, watch: Watch, b: Label, x: Value, o: Operand, n: Label) {
    && n in t.blocks && x !in Dsts(t.blocks[n].body) && (x in t.blocks[n].phis <==> n == b)
    && x !in ArgsAt(t, n)
    && (n == b || LiveIn(DirectFlow(t, watch), x, n) ==> OperandUses(o) !! BlockDefs(t.blocks[n], ArgsAt(t, n)))
  }

  lemma AroundBlock(t: Program, watch: Watch, b: Label, x: Value, o: Operand, n: Label)
    requires WellFormed(t, watch) && Trivial(t, b, x, o) && n in t.blocks && Reachable(DirectFlow(t, watch), n)
    ensures Around(t, watch, b, x, o, n)
  {
    assert InWellFormed(0);
    DirectBlock(t, watch, n);
    DirectBlock(t, watch, b);
    assert x in DirectFlow(t, watch).Def(b);
    assert n != b ==> x !in DirectFlow(t, watch).Def(n);
    if o.Use? && (n == b || LiveIn(DirectFlow(t, watch), x, n)) {
      ValueKept(t, watch, b, x, o.v, n);
    }
  }

  lemma UsedHere(t: Program, watch: Watch, b: Label, x: Value, o: Operand, n: Label)
    requires WellFormed(t, watch) && Around(t, watch, b, x, o, n)
    requires x in Outside(t.blocks[n].body, t.blocks[n].term)
    ensures n == b || LiveIn(DirectFlow(t, watch), x, n)
  {
    DirectBlock(t, watch, n);
    if n != b { UsedIsLive(DirectFlow(t, watch), x, n); }
  }

  lemma NeededOnEdge(t: Program, watch: Watch, m: Label, n: Label, x: Value)
    requires m in t.blocks && n in t.blocks && x in EdgeUses(t.blocks[n].phis, m)
    ensures LiveEdge(DirectFlow(t, watch), x, m, n)
  {
    DirectEdge(t, watch, m, n);
  }

  lemma PhisHaveOperands(t: Program, watch: Watch, m: Label, n: Label)
    requires WellFormed(t, watch) && IsEdge(t, m, n)
    ensures forall y :: y in t.blocks[n].phis ==> m in t.blocks[n].phis[y]
  {
    assert InWellFormed(0);
  }

  /** On the edge into a block, a phi that is needed there has its value. */
  lemma NeededTracked(t: Program, watch: Watch, x: Value, o: Operand, s: State)
    requires Tracked(t, watch, x, o, s) && IsEdge(t, s.pred, s.at)
    ensures x in EdgeUses(t.blocks[s.at].phis, s.pred) || LiveIn(DirectFlow(t, watch), x, s.at) ==> Get(s.env, x) == Eval(s.env, o)
  {
    if x in EdgeUses(t.blocks[s.at].phis, s.pred) { NeededOnEdge(t, watch, s.pred, s.at, x); }
  }

  /** The phis of one block. */
  lemma PhiStage(t: Program, watch: Watch, b: Label, x: Value, o: Operand, s: State, r: State)
    requires WellFormed(t, watch) && Trivial(t, b, x, o) && Around(t, watch, b, x, o, s.at)
    requires Tracked(t, watch, x, o, s) && SameBut(x, s, r)
    ensures var phis := t.blocks[s.at].phis;
            var env := RunPhis(phis, s.pred, s.env);
            && AgreeBut(x, env, RunPhis(PhisWithout(x, o, phis), s.pred, r.env))
            && (s.at == b || LiveIn(DirectFlow(t, watch), x, s.at) ==> Get(env, x) == Eval(env, o))
  {
    var n, phis := s.at, t.blocks[s.at].phis;
    var live := LiveIn(DirectFlow(t, watch), x, n);
    if n == t.entry {
      EntryStage(t, watch, b, x, o, s, r);
    } else {
      PhisHaveOperands(t, watch, s.pred, n);
      NeededTracked(t, watch, x, o, s);
      PhisReplaced(x, o, phis, s.pred, s.env, r.env);
      if n == b || live {
        ValueBehindPhis(x, o, phis, s.pred, s.env);
      }
    }
  }

  lemma EntryStage(t: Program, watch: Watch, b: Label, x: Value, o: Operand, s: State, r: State)
    requires WellFormed(t, watch) && Trivial(t, b, x, o) && s.at == t.entry && s.at in t.blocks && SameBut(x, s, r)
    ensures var phis := t.blocks[s.at].phis;
            && s.at != b && !LiveIn(DirectFlow(t, watch), x, s.at)
            && AgreeBut(x, RunPhis(phis, s.pred, s.env), RunPhis(PhisWithout(x, o, phis), s.pred, r.env))
  {
    EntryUnwatched(t, watch);
    NothingIntoEntry(t, watch, x);
    assert PhisWithout(x, o, t.blocks[s.at].phis) == map[];
    NoPhis(s.pred, s.env);
    NoPhis(s.pred, r.env);
  }

  /** Behind the block, on the edge that is taken. */
  lemma LiveBehind(t: Program, watch: Watch, b: Label, x: Value, o: Operand, n: Label, next: Label)
    requires WellFormed(t, watch) && Around(t, watch, b, x, o, n) && next in TermTargets(t.blocks[n].term)
    requires LiveEdge(DirectFlow(t, watch), x, n, next)
    ensures n == b || LiveIn(DirectFlow(t, watch), x, n)
  {
    DirectBlock(t, watch, n);
    if n != b { LiveBackwards(DirectFlow(t, watch), x, n, next); }
  }

  /** The code of a block and its branch. */
  lemma CodeReplaced(sem: Sem, x: Value, o: Operand, body: seq<Instr>, term: Term, used: bool, env: Env, renv: Env, w: World)
    requires AgreeBut(x, env, renv) && o != Use(x) && x !in Dsts(body)
    requires x in Outside(body, term) ==> used
    requires used ==> Usable(x, o, Dsts(body), env)
    ensures var (env', w') := RunBody(sem, body, env, w);
            var (renv', u') := RunBody(sem, ReplacedBody(x, o, body), renv, w);
            && u' == w' && AgreeBut(x, env', renv')
            && Target(term.(args := ReplacedArgs(x, o, term.args)), renv') == Target(term, env')
            && ExitOf(term.(args := ReplacedArgs(x, o, term.args)), renv', u') == ExitOf(term, env', w')
            && (used ==> Get(env', x) == Eval(env', o))
  {
    BodyReplaced(sem, x, o, body, term, env, renv, w);
    var env', renv' := RunBody(sem, body, env, w).0, RunBody(sem, ReplacedBody(x, o, body), renv, w).0;
    ReplacedEvalAll(x, o, term.args, env', renv');
  }

  lemma NextTracked(t: Program, watch: Watch, b: Label, x: Value, o: Operand, n: Label, next: Label, env: Env, w: World)
    requires WellFormed(t, watch) && Around(t, watch, b, x, o, n) && Reachable(DirectFlow(t, watch), n)
    requires next in TermTargets(t.blocks[n].term)
    requires n == b || LiveIn(DirectFlow(t, watch), x, n) ==> Get(env, x) == Eval(env, o)
    ensures Tracked(t, watch, x, o, State(n, next, env, w))
  {
    assert InWellFormed(0);
    DirectBlock(t, watch, n);
    ReachableSuccessor(DirectFlow(t, watch), n, next);
    if LiveEdge(DirectFlow(t, watch), x, n, next) { LiveBehind(t, watch, b, x, o, n, next); }
  }

  lemma WithoutAt(t: Program, x: Value, o: Operand, n: Label)
    requires n in t.blocks
    ensures n in WithoutPhi(t, x, o).blocks
    ensures WithoutPhi(t, x, o).blocks[n] ==
            Block(PhisWithout(x, o, t.blocks[n].phis), ReplacedBody(x, o, t.blocks[n].body),
                  t.blocks[n].term.(args := ReplacedArgs(x, o, t.blocks[n].term.args)))
  {
  }

  /** What running one block comes to. */
  datatype Outcome = Outcome(next: Option<Label>, env: Env, world: World, exit: Option<Exit>) {
    function After(n: Label): Option<State> {
      if next.None? then None else Some(State(n, next.value, env, world))
    }
  }

  function BlockOutcome(sem: Sem, b: Block, pred: Label, env: Env, w: World): Outcome {
    var (env', w') := RunBody(sem, b.body, RunPhis(b.phis, pred, env), w);
    Outcome(Target(b.term, env'), env', w', ExitOf(b.term, env', w'))
  }

  lemma StepOutcome(sem: Sem, t: Program, s: State)
    requires s.at in t.blocks
    ensures Step(sem, t, s) == BlockOutcome(sem, t.blocks[s.at], s.pred, s.env, s.world).After(s.at)
    ensures Returned(sem, t, s) == BlockOutcome(sem, t.blocks[s.at], s.pred, s.env, s.world).exit
  {
  }

  lemma BlockReplaced(sem: Sem, t: Program, watch: Watch, b: Label, x: Value, o: Operand, s: State, r: State)
    requires WellFormed(t, watch) && Trivial(t, b, x, o) && Tracked(t, watch, x, o, s) && SameBut(x, s, r) && Around(t, watch, b, x, o, s.at)
    ensures var a := BlockOutcome(sem, t.blocks[s.at], s.pred, s.env, s.world);
            var c := BlockOutcome(sem, ReplacedBlock(x, o, t.blocks[s.at]), r.pred, r.env, r.world);
            && c.next == a.next && c.world == a.world && c.exit == a.exit && AgreeBut(x, a.env, c.env)
            && (a.next.Some? ==> a.next.value in TermTargets(t.blocks[s.at].term))
            && (s.at == b || LiveIn(DirectFlow(t, watch), x, s.at) ==> Get(a.env, x) == Eval(a.env, o))
  {
    var n := s.at;
    var blk := t.blocks[n];
    var used := n == b || LiveIn(DirectFlow(t, watch), x, n);
    PhiStage(t, watch, b, x, o, s, r);
    if x in Outside(blk.body, blk.term) { UsedHere(t, watch, b, x, o, n); }
    var env, renv := RunPhis(blk.phis, s.pred, s.env), RunPhis(PhisWithout(x, o, blk.phis), s.pred, r.env);
    CodeReplaced(sem, x, o, blk.body, blk.term, used, env, renv, s.world);
    TargetIsSuccessor(blk.term, RunBody(sem, blk.body, env, s.world).0);
  }

  lemma StepReplaced(sem: Sem, t: Program, watch: Watch, b: Label, x: Value, o: Operand, s: State, r: State)
    requires WellFormed(t, watch) && Trivial(t, b, x, o) && Tracked(t, watch, x, o, s) && SameBut(x, s, r)
    ensures StepsSame(t, watch, x, o, Step(sem, t, s), Step(sem, WithoutPhi(t, x, o), r))
    ensures Returned(sem, WithoutPhi(t, x, o), r) == Returned(sem, t, s)
  {
    AroundBlock(t, watch, b, x, o, s.at);
    BlockReplaced(sem, t, watch, b, x, o, s, r);
    StepOutcome(sem, t, s);
    StepOutcome(sem, WithoutPhi(t, x, o), r);
    var a := BlockOutcome(sem, t.blocks[s.at], s.pred, s.env, s.world);
    if a.next.Some? {
      NextTracked(t, watch, b, x, o, s.at, a.next.value, a.env, a.world);
    }
  }

  /** From the same state the function without the phi runs alike. */
  lemma RunReplaced(sem: Sem, t: Program, watch: Watch, b: Label, x: Value, o: Operand, s: State, r: State, k: nat)
    requires WellFormed(t, watch) && Trivial(t, b, x, o) && Tracked(t, watch, x, o, s) && SameBut(x, s, r)
    ensures var f, g := Steps(sem, t), Steps(sem, WithoutPhi(t, x, o));
            BothLike(TrackedLike(t, watch, x, o), Run(f, s, k), Run(g, r, k)) && Trace(g, r, k) == Trace(f, s, k)
  {
    var like := TrackedLike(t, watch, x, o);
    forall a, c | Compare(a, c) && like(a, c)
      ensures a.at == c.at && BothLike(like, Steps(sem, t)(a), Steps(sem, WithoutPhi(t, x, o))(c))
    {
      StepReplaced(sem, t, watch, b, x, o, a, c);
    }
    RunsAlike(Steps(sem, t), Steps(sem, WithoutPhi(t, x, o)), like, s, r, k);
  }

  ghost function TrackedLike(t: Program, watch: Watch, x: Value, o: Operand): Likeness {
    (a, c) => Tracked(t, watch, x, o, a) && SameBut(x, a, c)
  }

  lemma EntryTracked(t: Program, watch: Watch, x: Value, o: Operand, s: State)
    requires WellFormed(t, watch) && s.at == t.entry
    ensures Tracked(t, watch, x, o, s)
  {
    EntryReached(t, watch);
    NothingOnEntry(t, watch, s.pred, x);
  }

  lemma EntryReached(t: Program, watch: Watch)
    requires WellFormed(t, watch)
    ensures t.entry in t.blocks && Reachable(DirectFlow(t, watch), t.entry)
  {
    assert InWellFormed(0);
    assert Walk(DirectFlow(t, watch), [t.entry]) && Last([t.entry]) == t.entry;
  }

  lemma NothingOnEntry(t: Program, watch: Watch, pred: Label, x: Value)
    requires WellFormed(t, watch)
    ensures !LiveEdge(DirectFlow(t, watch), x, pred, t.entry)
  {
    NothingIntoEntry(t, watch, x);
    EntryUnwatched(t, watch);
    NoEdgeUses(t, watch, pred);
  }

  lemma NothingIntoEntry(t: Program, watch: Watch, x: Value)
    requires WellFormed(t, watch)
    ensures !LiveIn(DirectFlow(t, watch), x, t.entry)
  {
    assert InWellFormed(0);
    assert DirectFlow(t, watch).entry == t.entry;
  }

  lemma EntryUnwatched(t: Program, watch: Watch)
    requires WellFormed(t, watch)
    ensures t.entry in t.blocks && t.blocks[t.entry].phis == map[] && forall k :: k in watch ==> k.1 != t.entry
  {
    assert InWellFormed(0);
  }

  lemma NoEdgeUses(t: Program, watch: Watch, pred: Label)
    requires t.entry in t.blocks && t.blocks[t.entry].phis == map[] && forall k :: k in watch ==> k.1 != t.entry
    ensures DirectFlow(t, watch).Edge(pred, t.entry) == {}
  {
    if pred in t.blocks { DirectEdge(t, watch, pred, t.entry); }
  }

  // ----- the result is well formed again -----

  lemma {:induction false} ReplacedDsts(x: Value, o: Operand, body: seq<Instr>)
    ensures Dsts(ReplacedBody(x, o, body)) == Dsts(body)
  {
    if body != [] {
      assert body == [body[0]] + body[1..];
      DstsCons(body[0], body[1..]);
      var i := body[0].(args := ReplacedArgs(x, o, body[0].args));
      DstsCons(i, ReplacedBody(x, o, body[1..]));
      ReplacedDsts(x, o, body[1..]);
    }
  }

  lemma ReplacedArgUses(x: Value, o: Operand, os: seq<Operand>)
    requires o != Use(x)
    ensures ArgUses(ReplacedArgs(x, o, os)) <= (ArgUses(os) - {x}) + if x in ArgUses(os) then OperandUses(o) else {}
  {
    forall v | v in ArgUses(ReplacedArgs(x, o, os))
      ensures v in (ArgUses(os) - {x}) + if x in ArgUses(os) then OperandUses(o) else {}
    {
      var i :| 0 <= i < |os| && ReplacedArgs(x, o, os)[i] == Use(v);
      assert os[i] in os;
    }
  }

  lemma {:induction false} ReplacedOutside(x: Value, o: Operand, body: seq<Instr>, term: Term)
    requires o != Use(x) && x !in Dsts(body)
    ensures Outside(ReplacedBody(x, o, body), term.(args := ReplacedArgs(x, o, term.args))) <=
            (Outside(body, term) - {x}) + if x in Outside(body, term) then OperandUses(o) else {}
  {
    if body == [] {
      ReplacedArgUses(x, o, term.args);
    } else {
      assert body == [body[0]] + body[1..];
      DstsCons(body[0], body[1..]);
      ReplacedArgUses(x, o, body[0].args);
      ReplacedOutside(x, o, body[1..], term);
      assert ReplacedBody(x, o, body)[1..] == ReplacedBody(x, o, body[1..]);
    }
  }

  lemma ReplacedEdgeUses(x: Value, o: Operand, phis: map<Value, Incoming>, m: Label)
    requires o != Use(x)
    ensures EdgeUses(PhisWithout(x, o, phis), m) <=
            (EdgeUses(phis, m) - {x}) + if x in EdgeUses(phis, m) then OperandUses(o) else {}
  {
    forall v | v in EdgeUses(PhisWithout(x, o, phis), m)
      ensures v in (EdgeUses(phis, m) - {x}) + if x in EdgeUses(phis, m) then OperandUses(o) else {}
    {
      var y :| y in PhisWithout(x, o, phis) && m in PhisWithout(x, o, phis)[y] && PhisWithout(x, o, phis)[y][m] == Use(v);
      assert y in phis && m in phis[y];
      if phis[y][m] == Use(x) { assert x in EdgeUses(phis, m); } else { assert v in EdgeUses(phis, m); }
    }
  }

  /** What the flow of the function without the phi demands of `v`: nothing new, or the value where the phi was needed. */
  lemma UsesWithout(t: Program, watch: Watch, b: Label, x: Value, o: Operand, n: Label, v: Value)
    requires Trivial(t, b, x, o) && Around(t, watch, b, x, o, n)
    requires v in DirectFlow(WithoutPhi(t, x, o), ReplacedWatch(x, o, watch)).Use(n)
    ensures v != x && (v in DirectFlow(t, watch).Use(n) || (o == Use(v) && (n == b || x in DirectFlow(t, watch).Use(n))))
  {
    WithoutAt(t, x, o, n);
    DirectBlock(WithoutPhi(t, x, o), ReplacedWatch(x, o, watch), n);
    DirectBlock(t, watch, n);
    BlockUsesWithout(x, o, t.blocks[n], ArgsAt(t, n), v);
  }

  lemma BlockUsesWithout(x: Value, o: Operand, b: Block, args: set<Value>, v: Value)
    requires o != Use(x) && x !in Dsts(b.body) && x !in args && v in DirectUses(ReplacedBlock(x, o, b), args)
    ensures v != x && (v in DirectUses(b, args) || (o == Use(v) && (x in b.phis || x in DirectUses(b, args))))
  {
    ReplacedOutside(x, o, b.body, b.term);
  }

  lemma EdgesWithout(t: Program, watch: Watch, b: Label, x: Value, o: Operand, m: Label, n: Label, v: Value)
    requires Trivial(t, b, x, o) && m in t.blocks && n in t.blocks
    requires v in DirectFlow(WithoutPhi(t, x, o), ReplacedWatch(x, o, watch)).Edge(m, n)
    ensures v != x && (v in DirectFlow(t, watch).Edge(m, n) || (o == Use(v) && x in DirectFlow(t, watch).Edge(m, n)))
  {
    var u := WithoutPhi(t, x, o);
    WithoutAt(t, x, o, n);
    WithoutAt(t, x, o, m);
    DirectEdge(u, ReplacedWatch(x, o, watch), m, n);
    DirectEdge(t, watch, m, n);
    ReplacedDemand(x, o, t.blocks[n].phis, watch, m, n, v);
  }

  lemma ReplacedDemand(x: Value, o: Operand, phis: map<Value, Incoming>, watch: Watch, m: Label, n: Label, v: Value)
    requires o != Use(x)
    requires v in EdgeUses(PhisWithout(x, o, phis), m) + WatchUses(ReplacedWatch(x, o, watch), m, n)
    ensures var before := EdgeUses(phis, m) + WatchUses(watch, m, n);
            v != x && (v in before || (o == Use(v) && x in before))
  {
    ReplacedEdgeUses(x, o, phis, m);
    ReplacedWatchUses(x, o, watch, m, n);
  }

  lemma ReplacedWatchUses(x: Value, o: Operand, watch: Watch, m: Label, n: Label)
    requires o != Use(x)
    ensures WatchUses(ReplacedWatch(x, o, watch), m, n) <=
            (WatchUses(watch, m, n) - {x}) + if x in WatchUses(watch, m, n) then OperandUses(o) else {}
  {
    forall v | v in WatchUses(ReplacedWatch(x, o, watch), m, n)
      ensures v in (WatchUses(watch, m, n) - {x}) + if x in WatchUses(watch, m, n) then OperandUses(o) else {}
    {
      var k :| k in watch && k.0 == m && k.1 == n && ReplacedWatch(x, o, watch)[k] == Use(v);
      if watch[k] == Use(x) { assert x in WatchUses(watch, m, n); } else { assert v in WatchUses(watch, m, n); }
    }
  }

  lemma FlowWithout(t: Program, watch: Watch, x: Value, o: Operand)
    ensures var f, g := DirectFlow(t, watch), DirectFlow(WithoutPhi(t, x, o), ReplacedWatch(x, o, watch));
            && g.entry == f.entry
            && (forall n :: g.Succ(n) == f.Succ(n))
            && (forall n, v :: v in g.Def(n) ==> v in f.Def(n))
            && (forall n, v :: v in f.Def(n) && v != x ==> v in g.Def(n))
  {
    forall n
      ensures DirectFlow(WithoutPhi(t, x, o), ReplacedWatch(x, o, watch)).Succ(n) == DirectFlow(t, watch).Succ(n)
      ensures forall v :: v in DirectFlow(WithoutPhi(t, x, o), ReplacedWatch(x, o, watch)).Def(n) ==> v in DirectFlow(t, watch).Def(n)
      ensures forall v :: v in DirectFlow(t, watch).Def(n) && v != x ==> v in DirectFlow(WithoutPhi(t, x, o), ReplacedWatch(x, o, watch)).Def(n)
    {
      FlowWithoutAt(t, watch, x, o, n);
    }
  }

  lemma FlowWithoutAt(t: Program, watch: Watch, x: Value, o: Operand, n: Label)
    ensures var f, g := DirectFlow(t, watch), DirectFlow(WithoutPhi(t, x, o), ReplacedWatch(x, o, watch));
            && g.Succ(n) == f.Succ(n) && g.Def(n) <= f.Def(n) && f.Def(n) <= g.Def(n) + {x}
  {
    if n in t.blocks {
      WithoutAt(t, x, o, n);
      DirectBlock(t, watch, n);
      DirectBlock(WithoutPhi(t, x, o), ReplacedWatch(x, o, watch), n);
      ReplacedDsts(x, o, t.blocks[n].body);
    }
  }

  /** Where the phi is needed, a walk has been in its block. */
  lemma NeededOnWalk(t: Program, watch: Watch, b: Label, x: Value, path: Path) returns (j: nat)
    requires WellFormed(t, watch) && b in t.blocks && x in t.blocks[b].phis && FromEntry(DirectFlow(t, watch), path)
    requires x in DirectFlow(t, watch).Use(Last(path))
             || (|path| > 1 && x in DirectFlow(t, watch).Edge(path[|path| - 2], Last(path)))
    ensures j < |path| - 1 && FromEntry(DirectFlow(t, watch), path[..j + 1]) && Last(path[..j + 1]) == b
  {
    assert InWellFormed(0);
    var f := DirectFlow(t, watch);
    DirectBlock(t, watch, b);
    if x in f.Use(Last(path)) {
      UsedIsLive(f, x, Last(path));
      j := DefinedOnWalk(f, x, path);
    } else {
      j := BeenThere(f, b, x, path);
    }
  }

  /** No definition of the phi's value lies on a walk on which the phi has been needed. */
  lemma ValueOnWalk(t: Program, watch: Watch, b: Label, x: Value, v: Value, path: Path)
    requires WellFormed(t, watch) && Trivial(t, b, x, Use(v)) && FromEntry(DirectFlow(t, watch), path)
    requires Last(path) == b || x in DirectFlow(t, watch).Use(Last(path))
             || (|path| > 1 && x in DirectFlow(t, watch).Edge(path[|path| - 2], Last(path)))
    ensures exists i :: 0 <= i < |path| - 1 && v in DirectFlow(t, watch).Def(path[i])
  {
    if Last(path) == b {
      var i := ValueBefore(t, watch, b, x, v, path);
    } else {
      var j := NeededOnWalk(t, watch, b, x, path);
      var i := ValueBefore(t, watch, b, x, v, path[..j + 1]);
      assert v in DirectFlow(t, watch).Def(path[i]);
    }
  }

  lemma NothingNewAtEntry(t: Program, watch: Watch, b: Label, x: Value, o: Operand, v: Value, path: Path)
    requires WellFormed(t, watch) && Trivial(t, b, x, o)
    requires FromEntry(DirectFlow(t, watch), path) && forall i :: 0 <= i < |path| - 1 ==> v !in DirectFlow(t, watch).Def(path[i])
    ensures v !in DirectFlow(t, watch).Use(Last(path)) && !(|path| > 1 && v in DirectFlow(t, watch).Edge(path[|path| - 2], Last(path)))
    ensures !(o == Use(v) && (Last(path) == b || x in DirectFlow(t, watch).Use(Last(path))
                              || (|path| > 1 && x in DirectFlow(t, watch).Edge(path[|path| - 2], Last(path)))))
  {
    assert InWellFormed(0);
    var f := DirectFlow(t, watch);
    if v in f.Use(Last(path)) {
      UsedIsLive(f, v, Last(path));
      LiveAlongWalk(f, v, path);
    } else if |path| > 1 && v in f.Edge(path[|path| - 2], Last(path)) {
      DefinedBeforeEdge(f, path, v);
    } else if o == Use(v) && (Last(path) == b || x in f.Use(Last(path))
                              || (|path| > 1 && x in f.Edge(path[|path| - 2], Last(path)))) {
      ValueOnWalk(t, watch, b, x, v, path);
    }
  }

  lemma StrictWithout(t: Program, watch: Watch, b: Label, x: Value, o: Operand)
    requires WellFormed(t, watch) && Trivial(t, b, x, o)
    ensures Strict(DirectFlow(WithoutPhi(t, x, o), ReplacedWatch(x, o, watch)))
  {
    var f, g := DirectFlow(t, watch), DirectFlow(WithoutPhi(t, x, o), ReplacedWatch(x, o, watch));
    FlowWithout(t, watch, x, o);
    forall v ensures !LiveIn(g, v, g.entry) {
      if path: Path :| path != [] && path[0] == g.entry && LivePath(g, v, path) {
        LivePathShape(g, v, path);
        NotLiveWithout(t, watch, b, x, o, v, path);
      }
    }
  }

  lemma NotLiveWithout(t: Program, watch: Watch, b: Label, x: Value, o: Operand, v: Value, path: Path)
    requires WellFormed(t, watch) && Trivial(t, b, x, o)
    requires var g := DirectFlow(WithoutPhi(t, x, o), ReplacedWatch(x, o, watch));
             FromEntry(g, path) && forall i :: 0 <= i < |path| - 1 ==> v !in g.Def(path[i])
    ensures var g := DirectFlow(WithoutPhi(t, x, o), ReplacedWatch(x, o, watch));
            !(v in g.Use(Last(path)) || (|path| > 1 && v in g.Edge(path[|path| - 2], Last(path))))
  {
    var g := DirectFlow(WithoutPhi(t, x, o), ReplacedWatch(x, o, watch));
    if v in g.Use(Last(path)) || (|path| > 1 && v in g.Edge(path[|path| - 2], Last(path))) {
      WalkWithout(t, watch, x, o, v, path);
      DemandWithout(t, watch, b, x, o, v, path);
      NothingNewAtEntry(t, watch, b, x, o, v, path);
    }
  }

  lemma WalkWithout(t: Program, watch: Watch, x: Value, o: Operand, v: Value, path: Path)
    requires var g := DirectFlow(WithoutPhi(t, x, o), ReplacedWatch(x, o, watch));
             FromEntry(g, path) && forall i :: 0 <= i < |path| - 1 ==> v !in g.Def(path[i])
    ensures FromEntry(DirectFlow(t, watch), path)
    ensures v != x ==> forall i :: 0 <= i < |path| - 1 ==> v !in DirectFlow(t, watch).Def(path[i])
  {
    var f, g := DirectFlow(t, watch), DirectFlow(WithoutPhi(t, x, o), ReplacedWatch(x, o, watch));
    FlowWithout(t, watch, x, o);
    SameWalk(f, g, path);
    if v != x { SameDefs(f, g, x, v, path); }
  }

  lemma SameWalk(f: Flow, g: Flow, path: Path)
    requires g.entry == f.entry && (forall n :: g.Succ(n) == f.Succ(n)) && FromEntry(g, path)
    ensures FromEntry(f, path)
  {
  }

  lemma SameDefs(f: Flow, g: Flow, x: Value, v: Value, path: Path)
    requires v != x && forall n, u :: u in f.Def(n) && u != x ==> u in g.Def(n)
    requires forall i :: 0 <= i < |path| - 1 ==> v !in g.Def(path[i])
    ensures forall i :: 0 <= i < |path| - 1 ==> v !in f.Def(path[i])
  {
  }

  /** What the last block of a path demands without the phi, it demanded before, or through the phi. */
  lemma DemandWithout(t: Program, watch: Watch, b: Label, x: Value, o: Operand, v: Value, path: Path)
    requires WellFormed(t, watch) && Trivial(t, b, x, o) && FromEntry(DirectFlow(t, watch), path)
    requires var g := DirectFlow(WithoutPhi(t, x, o), ReplacedWatch(x, o, watch));
             v in g.Use(Last(path)) || (|path| > 1 && v in g.Edge(path[|path| - 2], Last(path)))
    ensures var f := DirectFlow(t, watch);
            && v != x
            && (|| v in f.Use(Last(path)) || (|path| > 1 && v in f.Edge(path[|path| - 2], Last(path)))
                || (o == Use(v) && (Last(path) == b || x in f.Use(Last(path))
                                    || (|path| > 1 && x in f.Edge(path[|path| - 2], Last(path))))))
  {
    var g, n := DirectFlow(WithoutPhi(t, x, o), ReplacedWatch(x, o, watch)), Last(path);
    if v in g.Use(n) {
      assert n in t.blocks && Reachable(DirectFlow(t, watch), n);
      AroundBlock(t, watch, b, x, o, n);
      UsesWithout(t, watch, b, x, o, n, v);
    } else {
      var m := path[|path| - 2];
      assert m in t.blocks && n in t.blocks;
      EdgesWithout(t, watch, b, x, o, m, n, v);
    }
  }

  /** Erasing a trivial phi keeps the function well formed. */
  lemma WellFormedWithout(t: Program, watch: Watch, b: Label, x: Value, o: Operand)
    requires WellFormed(t, watch) && Trivial(t, b, x, o)
    ensures WellFormed(WithoutPhi(t, x, o), ReplacedWatch(x, o, watch))
  {
    StrictWithout(t, watch, b, x, o);
    DefsWithout(t, watch, x, o);
    BlocksAreOk(t, watch);
    BlocksWithout(t, watch, x, o);
  }

  lemma BlocksAreOk(t: Program, watch: Watch)
    requires WellFormed(t, watch)
    ensures BlocksOk(t, watch)
  {
    assert InWellFormed(0);
  }

  lemma DefsWithout(t: Program, watch: Watch, x: Value, o: Operand)
    requires WellFormed(t, watch)
    ensures SingleDef(DirectFlow(WithoutPhi(t, x, o), ReplacedWatch(x, o, watch)))
  {
    assert InWellFormed(0);
    FlowWithout(t, watch, x, o);
  }

  lemma BlocksWithout(t: Program, watch: Watch, x: Value, o: Operand)
    requires BlocksOk(t, watch)
    ensures BlocksOk(WithoutPhi(t, x, o), ReplacedWatch(x, o, watch))
  {
    var u := WithoutPhi(t, x, o);
    WithoutAt(t, x, o, t.entry);
    forall n | n in u.blocks
      ensures TermTargets(u.blocks[n].term) <= u.blocks.Keys && u.blocks[n].phis.Keys !! Dsts(u.blocks[n].body)
    {
      WithoutAt(t, x, o, n);
      ReplacedDsts(x, o, t.blocks[n].body);
    }
    CompleteWithout(t, x, o);
  }

  lemma CompleteWithout(t: Program, x: Value, o: Operand)
    requires Complete(t)
    ensures Complete(WithoutPhi(t, x, o))
  {
    var u := WithoutPhi(t, x, o);
    forall m, n, y | IsEdge(u, m, n) && y in u.blocks[n].phis
      ensures m in u.blocks[n].phis[y]
    {
      WithoutAt(t, x, o, n);
      WithoutAt(t, x, o, m);
      assert IsEdge(t, m, n) && y in t.blocks[n].phis;
    }
  }

  // ----- until nothing is removed -----

  function PhiSet(t: Program): set<(Label, Value)> {
    set n, x | n in t.blocks && x in t.blocks[n].phis :: (n, x)
  }

  /** The phis of `t` that `u` does not have any more. */
  function Removed(t: Program, u: Program): set<Value> {
    set e | e in PhiSet(t) && e !in PhiSet(u) :: e.1
  }

  /** What is watched on the edge into the block has the same value on both sides. */
  ghost predicate WatchedSame(seen: Watch, left: Watch, a: State, c: State) {
    forall k :: k in seen && k.0 == a.pred && k.1 == a.at ==> k in left && Eval(c.env, left[k]) == Eval(a.env, seen[k])
  }

  /** The same but for phis that are gone; the block about to be entered returns the same, if it returns. */
  ghost predicate Alike(sem: Sem, t: Program, u: Program, seen: Watch, left: Watch, a: State, c: State) {
    && c.pred == a.pred && c.at == a.at && c.world == a.world
    && (forall v :: v !in Removed(t, u) ==> Get(c.env, v) == Get(a.env, v))
    && WatchedSame(seen, left, a, c)
    && Returned(sem, u, c) == Returned(sem, t, a)
  }

  ghost function AlikeBy(sem: Sem, t: Program, u: Program, seen: Watch, left: Watch): Likeness {
    (a, c) => Alike(sem, t, u, seen, left, a, c)
  }

  ghost predicate AlikeFrom(sem: Sem, t: Program, u: Program, seen: Watch, left: Watch, s: State, k: nat) {
    && BothLike(AlikeBy(sem, t, u, seen, left), Run(Steps(sem, t), s, k), Run(Steps(sem, u), s, k))
    && Trace(Steps(sem, u), s, k) == Trace(Steps(sem, t), s, k)
  }

  /**
    `u` is `t` without some phis, and every run from the entry goes through the same blocks, with the same memory, the
    same values but for those phis, the same watched values, and returns the same.
   */
  ghost predicate SameRuns(t: Program, u: Program, seen: Watch, left: Watch) {
    && u.entry == t.entry && PhiSet(u) <= PhiSet(t)
    && forall sem, s: State, k :: s.at == t.entry ==> AlikeFrom(sem, t, u, seen, left, s, k)
  }

  /** On the edge a state is at, what is watched has its value without the phi as well. */
  lemma WatchReplaced(t: Program, watch: Watch, b: Label, x: Value, o: Operand, a: State, c: State)
    requires WellFormed(t, watch) && Trivial(t, b, x, o) && Tracked(t, watch, x, o, a) && SameBut(x, a, c)
    ensures WatchedSame(watch, ReplacedWatch(x, o, watch), a, c)
  {
    assert InWellFormed(0);
    forall k | k in watch && k.0 == a.pred && k.1 == a.at
      ensures Eval(c.env, Replaced(x, o, watch[k])) == Eval(a.env, watch[k])
    {
      if watch[k] == Use(x) {
        assert x in WatchUses(watch, a.pred, a.at);
        DirectEdge(t, watch, a.pred, a.at);
      }
      ReplacedEval(x, o, watch[k], a.env, c.env);
    }
  }

  lemma RemovedOne(t: Program, b: Label, x: Value, o: Operand)
    requires Trivial(t, b, x, o)
    ensures x in Removed(t, WithoutPhi(t, x, o)) && PhiSet(WithoutPhi(t, x, o)) < PhiSet(t)
  {
    FewerPhis(t, b, x, o);
    assert (b, x) in PhiSet(t) && (b, x) !in PhiSet(WithoutPhi(t, x, o));
  }

  lemma TrackedAlike(sem: Sem, t: Program, watch: Watch, b: Label, x: Value, o: Operand, a: State, c: State)
    requires WellFormed(t, watch) && Trivial(t, b, x, o) && TrackedLike(t, watch, x, o)(a, c)
    ensures Alike(sem, t, WithoutPhi(t, x, o), watch, ReplacedWatch(x, o, watch), a, c)
  {
    StepReplaced(sem, t, watch, b, x, o, a, c);
    WatchReplaced(t, watch, b, x, o, a, c);
    RemovedOne(t, b, x, o);
  }

  lemma AlikeWithout(sem: Sem, t: Program, watch: Watch, b: Label, x: Value, o: Operand, s: State, k: nat)
    requires WellFormed(t, watch) && Trivial(t, b, x, o) && s.at == t.entry
    ensures AlikeFrom(sem, t, WithoutPhi(t, x, o), watch, ReplacedWatch(x, o, watch), s, k)
  {
    EntryTracked(t, watch, x, o, s);
    RunReplaced(sem, t, watch, b, x, o, s, s, k);
    var a, c := Run(Steps(sem, t), s, k), Run(Steps(sem, WithoutPhi(t, x, o)), s, k);
    if a.Some? { TrackedAlike(sem, t, watch, b, x, o, a.value, c.value); }
  }

  lemma SameRunsOne(t: Program, watch: Watch, b: Label, x: Value, o: Operand)
    requires WellFormed(t, watch) && Trivial(t, b, x, o)
    ensures SameRuns(t, WithoutPhi(t, x, o), watch, ReplacedWatch(x, o, watch))
  {
    RemovedOne(t, b, x, o);
    forall sem, s: State, k: nat | s.at == t.entry
      ensures AlikeFrom(sem, t, WithoutPhi(t, x, o), watch, ReplacedWatch(x, o, watch), s, k)
    {
      AlikeWithout(sem, t, watch, b, x, o, s, k);
    }
  }

  lemma AlikeTransitive(sem: Sem, t: Program, u: Program, w: Program, seen: Watch, mid: Watch, left: Watch, a: State, c: State, e: State)
    requires Alike(sem, t, u, seen, mid, a, c) && Alike(sem, u, w, mid, left, c, e) && PhiSet(w) <= PhiSet(u) <= PhiSet(t)
    ensures Alike(sem, t, w, seen, left, a, e)
  {
    forall v | v !in Removed(t, w) ensures Get(e.env, v) == Get(a.env, v) {
      RemovedTwice(t, u, w, v);
    }
  }

  lemma RemovedTwice(t: Program, u: Program, w: Program, v: Value)
    requires PhiSet(w) <= PhiSet(u) <= PhiSet(t) && v !in Removed(t, w)
    ensures v !in Removed(t, u) && v !in Removed(u, w)
  {
  }

  lemma SameRunsTransitive(t: Program, u: Program, w: Program, seen: Watch, mid: Watch, left: Watch)
    requires SameRuns(t, u, seen, mid) && SameRuns(u, w, mid, left)
    ensures SameRuns(t, w, seen, left)
  {
    forall sem, s: State, k: nat | s.at == t.entry ensures AlikeFrom(sem, t, w, seen, left, s, k) {
      assert AlikeFrom(sem, t, u, seen, mid, s, k) && AlikeFrom(sem, u, w, mid, left, s, k);
      var a, c, e := Run(Steps(sem, t), s, k), Run(Steps(sem, u), s, k), Run(Steps(sem, w), s, k);
      if a.Some? { AlikeTransitive(sem, t, u, w, seen, mid, left, a.value, c.value, e.value); }
    }
  }

  lemma FewerPhis(t: Program, b: Label, x: Value, o: Operand)
    requires Trivial(t, b, x, o)
    ensures PhiSet(WithoutPhi(t, x, o)) < PhiSet(t)
  {
    assert (b, x) in PhiSet(t);
  }

  /** Replacing one phi leaves another constant phi constant. */
  lemma StaysConstant(inc: Incoming, x: Value, o: Operand, y: Value, p: Operand)
    requires Constant(inc, x, o) && y != x && p != Use(y)
    ensures exists q :: Constant(ReplacedIncoming(y, p, inc), x, q)
  {
    var inc' := ReplacedIncoming(y, p, inc);
    var q := if forall m :: m in inc' ==> inc'[m] == Use(x) then Const(0) else Replaced(y, p, o);
    if exists m :: m in inc' && inc'[m] != Use(x) {
      var m :| m in inc' && inc'[m] != Use(x);
      assert inc[m] == o;
      assert inc'[m] == q && q in inc'.Values;
    }
    assert Constant(inc', x, q);
  }

  ghost predicate HasConstant(inc: Incoming, x: Value) {
    exists o :: Constant(inc, x, o)
  }

  /** The phi merges two different values that are not itself. */
  ghost predicate MergesTwo(inc: Incoming, x: Value) {
    exists k, m :: k in inc && m in inc && inc[k] != inc[m] && inc[k] != Use(x) && inc[m] != Use(x)
  }

  /** A phi is constant unless it merges two different values. */
  lemma ConstantUnlessTwo(inc: Incoming, x: Value)
    ensures HasConstant(inc, x) <==> !MergesTwo(inc, x)
  {
    if k, m :| k in inc && m in inc && inc[k] != inc[m] && inc[k] != Use(x) && inc[m] != Use(x) {
      TwoValues(inc, x, k, m);
    } else if m :| m in inc && inc[m] != Use(x) {
      assert inc[m] in inc.Values;
      assert Constant(inc, x, inc[m]);
    } else {
      assert Constant(inc, x, Const(0));
    }
  }

  /** The phis of a block that are to go. */
  method ConstantPhis(b: Block) returns (xs: set<Value>)
    ensures xs <= b.phis.Keys && forall x :: x in b.phis ==> (x in xs <==> HasConstant(b.phis[x], x))
  {
    xs := {};
    var todo := b.phis.Keys;
    while todo != {}
      invariant todo <= b.phis.Keys && xs <= b.phis.Keys - todo
      invariant forall x :: x in b.phis && x !in todo ==> (x in xs <==> HasConstant(b.phis[x], x))
      decreases todo
    {
      var x :| x in todo;
      var value := HasConstantValue(b.phis[x], x);
      if value.Some? { xs := xs + {x}; }
      todo := todo - {x};
    }
  }

  /** What a sweep has kept and achieved. */
  ghost predicate Swept(t: Program, u: Program, seen: Watch, left: Watch) {
    WellFormed(u, left) && SameRuns(t, u, seen, left) && u.blocks.Keys == t.blocks.Keys
  }

  lemma SweptOn(t0: Program, t: Program, seen: Watch, left: Watch, b: Label, x: Value, o: Operand)
    requires Swept(t0, t, seen, left) && Trivial(t, b, x, o)
    ensures Swept(t0, WithoutPhi(t, x, o), seen, ReplacedWatch(x, o, left))
  {
    WellFormedWithout(t, left, b, x, o);
    SameRunsOne(t, left, b, x, o);
    SameRunsTransitive(t0, t, WithoutPhi(t, x, o), seen, left, ReplacedWatch(x, o, left));
  }

  lemma OthersConstant(t: Program, b: Label, x: Value, o: Operand)
    requires Trivial(t, b, x, o)
    ensures var u := WithoutPhi(t, x, o);
            && b in u.blocks && u.blocks[b].phis.Keys == t.blocks[b].phis.Keys - {x}
            && forall y :: y in u.blocks[b].phis && HasConstant(t.blocks[b].phis[y], y) ==> HasConstant(u.blocks[b].phis[y], y)
  {
    var u := WithoutPhi(t, x, o);
    WithoutAt(t, x, o, b);
    forall y | y in u.blocks[b].phis && HasConstant(t.blocks[b].phis[y], y)
      ensures HasConstant(u.blocks[b].phis[y], y)
    {
      var p :| Constant(t.blocks[b].phis[y], y, p);
      StaysConstant(t.blocks[b].phis[y], y, p, x, o);
    }
  }

  method RemovePhi(ghost t0: Program, t: Program, b: Label, x: Value, ghost seen: Watch, ghost left: Watch)
    returns (u: Program, ghost more: Watch)
    requires Swept(t0, t, seen, left) && b in t.blocks && x in t.blocks[b].phis && HasConstant(t.blocks[b].phis[x], x)
    ensures Swept(t0, u, seen, more) && PhiSet(u) < PhiSet(t)
    ensures b in u.blocks && u.blocks[b].phis.Keys == t.blocks[b].phis.Keys - {x}
    ensures forall y :: y in u.blocks[b].phis && HasConstant(t.blocks[b].phis[y], y) ==> HasConstant(u.blocks[b].phis[y], y)
  {
    var value := HasConstantValue(t.blocks[b].phis[x], x);
    u, more := WithoutPhi(t, x, value.value), ReplacedWatch(x, value.value, left);
    FewerPhis(t, b, x, value.value);
    SweptOn(t0, t, seen, left, b, x, value.value);
    OthersConstant(t, b, x, value.value);
  }

  /** The phis of one node. */
  method SweepNode(ghost t0: Program, t: Program, b: Label, ghost seen: Watch, ghost left: Watch)
    returns (u: Program, removed: bool, ghost more: Watch)
    requires Swept(t0, t, seen, left) && b in t.blocks
    ensures Swept(t0, u, seen, more)
    ensures if removed then PhiSet(u) < PhiSet(t)
            else u == t && forall x :: x in t.blocks[b].phis ==> !HasConstant(t.blocks[b].phis[x], x)
  {
    u, removed, more := t, false, left;
    var phis := ConstantPhis(t.blocks[b]);
    var todo := phis;
    while todo != {}
      invariant Swept(t0, u, seen, more) && b in u.blocks
      invariant todo <= phis && todo <= u.blocks[b].phis.Keys
      invariant forall x :: x in todo ==> HasConstant(u.blocks[b].phis[x], x)
      invariant if removed then PhiSet(u) < PhiSet(t) else u == t && todo == phis
      decreases todo
    {
      var x :| x in todo;
      u, more := RemovePhi(t0, u, b, x, seen, more);
      removed := true;
      todo := todo - {x};
    }
  }

  /** Step 3: sweeps over all nodes until none removes a phi. */
  method RemoveTrivialPhis(t0: Program, ghost seen: Watch) returns (t: Program, ghost left: Watch)
    requires WellFormed(t0, seen)
    ensures WellFormed(t, left) && SameRuns(t0, t, seen, left)
    ensures forall b, x :: b in t.blocks && x in t.blocks[b].phis ==>
              !HasConstant(t.blocks[b].phis[x], x) && MergesTwo(t.blocks[b].phis[x], x)
  {
    t, left := t0, seen;
    SameRunsSelf(t0, seen);
    var removed := true;
    while removed
      invariant Swept(t0, t, seen, left)
      invariant !removed ==>
                  forall b, x :: b in t.blocks && x in t.blocks[b].phis ==> !HasConstant(t.blocks[b].phis[x], x)
      decreases PhiSet(t), removed
    {
      removed := false;
      ghost var before := t;
      var todo := t.blocks.Keys;
      while todo != {}
        invariant Swept(t0, t, seen, left) && todo <= t.blocks.Keys
        invariant if removed then PhiSet(t) < PhiSet(before)
                  else t == before && forall b, x :: b in t.blocks && b !in todo && x in t.blocks[b].phis ==>
                                        !HasConstant(t.blocks[b].phis[x], x)
        decreases todo
      {
        var b :| b in todo;
        var changed;
        t, changed, left := SweepNode(t0, t, b, seen, left);
        removed := removed || changed;
        todo := todo - {b};
      }
    }
    forall b, x | b in t.blocks && x in t.blocks[b].phis ensures MergesTwo(t.blocks[b].phis[x], x) {
      ConstantUnlessTwo(t.blocks[b].phis[x], x);
    }
  }

  lemma SameRunsSelf(t: Program, watch: Watch)
    ensures SameRuns(t, t, watch, watch)
  {
    forall sem, s: State, k: nat | s.at == t.entry ensures AlikeFrom(sem, t, t, watch, watch, s, k) {
    }
  }
}
