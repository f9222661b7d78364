/**
  A function that meets everything the pass asks for: a loop that swaps two pointers at every turn,
  as it is behind the pointer analysis and the splitting of its loop header.
 */
module Example {
  import opened Records
  import opened IR
  import opened Pointers
  import opened Paths
  import opened UseDef
  import opened Transform
  import opened Function
  import opened Closure
  import opened Rewriting
  import opened Locality
  import opened Emission
  import opened Typing
  import opened Pass

  const N := Src(0)
  const A := Src(1)
  const B := Src(2)
  const P := Src(3)
  const Q := Src(4)
  const PSize := Src(5)
  const PCount := Src(6)
  const QSize := Src(7)
  const QCount := Src(8)
  const C := Src(9)

  /** Two heap allocations of `N` bytes, and the two phis that may be either of them. */
  function Info(): map<Value, PointerInfo> {
    map[A := PointerInfo(Const(8), Use(N), [A]), B := PointerInfo(Const(8), Use(N), [B]),
        P := PointerInfo(Use(PSize), Use(PCount), [A, B]), Q := PointerInfo(Use(QSize), Use(QCount), [A, B])]
  }

  function Analysis(): Pointers {
    Pointers(Info(), map[P := 1, Q := 1])
  }

  function Kinds(): Types {
    Types(map[N := 64, PSize := 64, PCount := 64, QSize := 64, QCount := 64, C := 64], map[A := Heap, B := Heap])
  }

  function Both(first: Operand, again: Operand): Incoming {
    map[Orig(0) := first, Orig(2) := again]
  }

  function Swaps(): map<Value, Incoming> {
    map[P := Both(Use(A), Use(Q)), Q := Both(Use(B), Use(P)),
        PSize := Both(Const(8), Use(QSize)), PCount := Both(Use(N), Use(QCount)),
        QSize := Both(Const(8), Use(PSize)), QCount := Both(Use(N), Use(PCount))]
  }

  function Setup(): seq<Instr> {
    [Instr(Some(N), Arith(0, 64), []), Instr(Some(A), NewHeap, [Use(N)]), Instr(Some(B), NewHeap, [Use(N)])]
  }

  function Turn(): seq<Instr> {
    [Instr(None, Write(0), [Const(7), Use(P)]), Instr(Some(C), Read(0, 64), [Use(Q)])]
  }

  function End(): Term { Term([Use(C)], [(0, Orig(3))], Some(Orig(1))) }

  function Exit(): Term { Term([Use(C)], [], None) }

  /** Entry, phis, loop body and exit. */
  function Swap(): Program {
    Program(
      map[Orig(0) := Block(map[], Setup(), Jump(Orig(1))),
          Orig(1) := Block(Swaps(), [], Jump(Orig(2))),
          Orig(2) := Block(map[], Turn(), End()),
          Orig(3) := Block(map[], [], Exit())],
      Orig(0), {})
  }

  // ----- what pointers drag along -----

  function Passed(): set<Value> { {A, B, N} }

  function Swapped(): set<Value> { {P, Q, PSize, PCount, QSize, QCount} }

  /** What a use drags along, itself included. */
  function NeedIs(v: Value): set<Value> {
    if v == A then {A, N}
    else if v == B then {B, N}
    else if v == P then {P, PSize, PCount} + Passed()
    else if v == Q then {Q, QSize, QCount} + Passed()
    else {v}
  }

  ghost predicate KnownNeeds(ps: Pointers) {
    ps.Acyclic() && forall v :: Needs(ps, v) == NeedIs(v)
  }

  lemma AllocationUses(ps: Pointers, a: Value)
    requires ps.Acyclic() && a in ps.info && ps.info[a] == PointerInfo(Const(8), Use(N), [a])
    ensures PointerUses(ps, a) == {a, N}
  {
    assert [a][1..] == [];
    assert AliasUses(ps, a, [a]) == {a};
  }

  lemma PhiUses(ps: Pointers, p: Value, size: Value, count: Value)
    requires ps.Acyclic() && p in ps.info && ps.info[p] == PointerInfo(Use(size), Use(count), [A, B]) && p != A && p != B
    requires A in ps.info && ps.info[A] == PointerInfo(Const(8), Use(N), [A])
    requires B in ps.info && ps.info[B] == PointerInfo(Const(8), Use(N), [B])
    ensures PointerUses(ps, p) == {size, count} + Passed()
  {
    AllocationUses(ps, A);
    AllocationUses(ps, B);
    assert [A, B][1..] == [B] && [B][1..] == [];
    assert AliasUses(ps, p, []) == {};
    assert AliasUses(ps, p, [B]) == {B, N};
    assert AliasUses(ps, p, [A, B]) == {A, B, N};
  }

  lemma NoUses(ps: Pointers, v: Value)
    requires ps.Acyclic() && v !in ps.info
    ensures PointerUses(ps, v) == {}
  {
  }

  lemma WithItself(v: Value, uses: set<Value>)
    requires v == A ==> uses == {A, N}
    requires v == B ==> uses == {B, N}
    requires v == P ==> uses == {PSize, PCount} + Passed()
    requires v == Q ==> uses == {QSize, QCount} + Passed()
    requires v !in {A, B, P, Q} ==> uses == {}
    ensures {v} + uses == NeedIs(v)
  {
  }

  lemma AllNeeds(ps: Pointers)
    requires ps.Acyclic() && ps.info.Keys == {A, B, P, Q}
    requires PointerUses(ps, A) == {A, N} && PointerUses(ps, B) == {B, N}
    requires PointerUses(ps, P) == {PSize, PCount} + Passed() && PointerUses(ps, Q) == {QSize, QCount} + Passed()
    ensures KnownNeeds(ps)
  {
    forall v ensures Needs(ps, v) == NeedIs(v) {
      if v !in ps.info { NoUses(ps, v); }
      WithItself(v, PointerUses(ps, v));
    }
  }

  lemma NeedsAre()
    ensures KnownNeeds(Analysis())
  {
    var ps := Analysis();
    assert ps.Acyclic();
    AllocationUses(ps, A);
    AllocationUses(ps, B);
    PhiUses(ps, P, PSize, PCount);
    PhiUses(ps, Q, QSize, QCount);
    AllNeeds(ps);
  }

  // ----- its flow graph -----

  function DefIs(n: Label): set<Value> {
    if n == Orig(0) then Passed() else if n == Orig(1) then Swapped() else if n == Orig(2) then {C} else {}
  }

  function UseIs(n: Label): set<Value> {
    if n == Orig(2) then Swapped() + Passed() else if n == Orig(3) then {C} else {}
  }

  function SuccIs(n: Label): set<Label> {
    if n == Orig(0) then {Orig(1)} else if n == Orig(1) then {Orig(2)} else if n == Orig(2) then {Orig(1), Orig(3)} else {}
  }

  /** What the phis take on the edge from `m`. */
  function TakenIs(m: Label): set<Value> {
    if m == Orig(0) then Passed() else if m == Orig(2) then Swapped() + Passed() else {}
  }

  function EdgeIs(m: Label, n: Label): set<Value> {
    if n == Orig(1) then TakenIs(m) else {}
  }

  ghost predicate Flows(f: Flow) {
    && f.entry == Orig(0) && (forall n :: f.Def(n) == DefIs(n) && f.Use(n) == UseIs(n) && f.Succ(n) == SuccIs(n))
    && forall m, n :: f.Edge(m, n) == EdgeIs(m, n)
  }

  function Live(): map<Label, set<Value>> {
    map[Orig(1) := Passed(), Orig(2) := Swapped() + Passed(), Orig(3) := {C}]
  }

  lemma LiveSolves(f: Flow)
    requires Flows(f)
    ensures Solves(f, Live())
  {
    forall n, v | v in f.Use(n) ensures n in Live() && v in Live()[n] { }
    forall n, s, v | s in f.Succ(n) && v !in f.Def(n) && (v in f.Edge(n, s) || (s in Live() && v in Live()[s]))
      ensures n in Live() && v in Live()[n]
    {
      assert s in SuccIs(n) && v !in DefIs(n) && f.Edge(n, s) == EdgeIs(n, s);
    }
  }

  lemma IsStrict(f: Flow)
    requires Flows(f)
    ensures Strict(f)
  {
    LiveSolves(f);
    forall v ensures !LiveIn(f, v, f.entry) {
      if LiveIn(f, v, f.entry) {
        var path: Path :| path != [] && path[0] == f.entry && LivePath(f, v, path);
        LeastSolution(f, Live(), v, path);
        assert false;
      }
    }
  }

  lemma HomeIs(v: Value, n: Label)
    requires v in DefIs(n)
    ensures n == Orig(if v in Passed() then 0 else if v == C then 2 else 1)
  {
  }

  lemma DefinedOnce(f: Flow)
    requires Flows(f)
    ensures SingleDef(f)
  {
    forall v, m, n | v in f.Def(m) && v in f.Def(n) ensures m == n {
      HomeIs(v, m);
      HomeIs(v, n);
    }
  }

  lemma AllReachable(f: Flow)
    requires Flows(f)
    ensures Reachable(f, Orig(0)) && Reachable(f, Orig(1)) && Reachable(f, Orig(2)) && Reachable(f, Orig(3))
  {
    assert Walk(f, [Orig(0)]) && Last([Orig(0)]) == Orig(0);
    ReachableSuccessor(f, Orig(0), Orig(1));
    ReachableSuccessor(f, Orig(1), Orig(2));
    ReachableSuccessor(f, Orig(2), Orig(3));
  }

  lemma NeedsComeFirst(f: Flow, q: Value, a: Value)
    requires Flows(f) && a in NeedIs(q) && a != q
    ensures Dominates(f, a, q)
  {
    forall path | FromEntry(f, path) && q in f.Def(Last(path)) ensures exists i :: 0 <= i < |path| && a in f.Def(path[i]) {
      assert f.Def(path[0]) == DefIs(Orig(0)) && f.Def(path[|path| - 1]) == DefIs(Last(path));
      if a in Passed() {
        assert a in f.Def(path[0]);
      } else {
        assert a in f.Def(path[|path| - 1]);
      }
    }
  }

  /** What comes from both sides is live into the block of the phis. */
  lemma SharedIsLive(f: Flow, k: Label, m: Label, v: Value)
    requires Flows(f) && k != m && v in TakenIs(k) && v in TakenIs(m)
    ensures v in f.Def(m) || LiveIn(Ordinary(f), v, Orig(1))
  {
    if m == Orig(0) {
      assert v in f.Def(m);
    } else {
      var g := Ordinary(f);
      assert v in Passed();
      assert g.Use(Orig(2)) == f.Use(Orig(2)) && g.Def(Orig(1)) == f.Def(Orig(1)) && g.Succ(Orig(1)) == f.Succ(Orig(1));
      UsedIsLive(g, v, Orig(2));
      LiveBackwards(g, v, Orig(1), Orig(2));
    }
  }

  // ----- the function has it -----

  ghost predicate IsSwap(p: Program, setup: seq<Instr>, phis: map<Value, Incoming>, turn: seq<Instr>, end: Term, exit: Term) {
    && p.blocks.Keys == {Orig(0), Orig(1), Orig(2), Orig(3)} && p.entry == Orig(0) && p.args == {}
    && p.blocks[Orig(0)] == Block(map[], setup, Jump(Orig(1))) && p.blocks[Orig(1)] == Block(phis, [], Jump(Orig(2)))
    && p.blocks[Orig(2)] == Block(map[], turn, end) && p.blocks[Orig(3)] == Block(map[], [], exit)
  }

  /** The pieces, as far as the flow graph goes. */
  ghost predicate Pieces(ps: Pointers, setup: seq<Instr>, phis: map<Value, Incoming>, turn: seq<Instr>, end: Term, exit: Term)
    requires ps.Acyclic()
  {
    && Dsts(setup) == Passed() && BodyNeeds(ps, setup, Jump(Orig(1))) == {}
    && phis.Keys == Swapped() && (forall m :: PhiNeeds(ps, phis, m) == TakenIs(m))
    && Dsts(turn) == {C} && BodyNeeds(ps, turn, end) == Swapped() + Passed() && TermTargets(end) == {Orig(1), Orig(3)}
    && BodyNeeds(ps, [], exit) == {C} && TermTargets(exit) == {}
  }

  /** One block, seen in the flow graph. */
  ghost predicate BlockIs(f: Flow, n: Label, defs: set<Value>, uses: set<Value>, succ: set<Label>) {
    f.Def(n) == defs && f.Use(n) == uses && f.Succ(n) == succ
  }

  lemma BlockSeen(ps: Pointers, p: Program, n: Label, b: Block)
    requires ps.Acyclic() && n in p.blocks && p.blocks[n] == b && p.args == {}
    ensures BlockIs(FlowOf(ps, p), n, b.phis.Keys + Dsts(b.body), BodyNeeds(ps, b.body, b.term) - b.phis.Keys, TermTargets(b.term))
  {
    BlockFlow(ps, p, n);
  }

  lemma NothingSeen(ps: Pointers, p: Program, n: Label)
    requires ps.Acyclic() && n !in p.blocks
    ensures BlockIs(FlowOf(ps, p), n, {}, {}, {})
  {
  }

  lemma JumpTargets(ps: Pointers, l: Label)
    requires ps.Acyclic()
    ensures TermTargets(Jump(l)) == {l} && BodyNeeds(ps, [], Jump(l)) == {}
  {
  }

  lemma EdgeSeen(ps: Pointers, p: Program, phis: map<Value, Incoming>, m: Label, n: Label)
    requires ps.Acyclic() && (Orig(1) in p.blocks && p.blocks[Orig(1)].phis == phis)
    requires forall l :: l in p.blocks && l != Orig(1) ==> p.blocks[l].phis == map[]
    requires m in p.blocks || PhiNeeds(ps, phis, m) == {}
    ensures FlowOf(ps, p).Edge(m, n) == if n == Orig(1) then PhiNeeds(ps, phis, m) else {}
  {
    if m in p.blocks && n in p.blocks { EdgeOf(ps, p, m, n); }
  }

  lemma OneBlock(ps: Pointers, p: Program, setup: seq<Instr>, phis: map<Value, Incoming>, turn: seq<Instr>, end: Term, exit: Term, n: Label)
    requires ps.Acyclic() && IsSwap(p, setup, phis, turn, end, exit) && Pieces(ps, setup, phis, turn, end, exit) && n in p.blocks
    ensures BlockIs(FlowOf(ps, p), n, DefIs(n), UseIs(n), SuccIs(n))
  {
    if n == Orig(0) {
      CodeSeen(ps, p, n, setup, Jump(Orig(1)));
      JumpTargets(ps, Orig(1));
    } else if n == Orig(1) {
      PhisSeen(ps, p, n, phis, Orig(2));
    } else if n == Orig(2) {
      CodeSeen(ps, p, n, turn, end);
    } else {
      CodeSeen(ps, p, n, [], exit);
      NoDsts();
    }
  }

  lemma CodeSeen(ps: Pointers, p: Program, n: Label, body: seq<Instr>, term: Term)
    requires ps.Acyclic() && n in p.blocks && p.blocks[n] == Block(map[], body, term) && p.args == {}
    ensures BlockIs(FlowOf(ps, p), n, Dsts(body), BodyNeeds(ps, body, term), TermTargets(term))
  {
    BlockSeen(ps, p, n, p.blocks[n]);
  }

  lemma PhisSeen(ps: Pointers, p: Program, n: Label, phis: map<Value, Incoming>, next: Label)
    requires ps.Acyclic() && n in p.blocks && p.blocks[n] == Block(phis, [], Jump(next)) && p.args == {}
    ensures BlockIs(FlowOf(ps, p), n, phis.Keys, {}, {next})
  {
    NoDsts();
    JumpTargets(ps, next);
    BlockSeen(ps, p, n, p.blocks[n]);
  }

  lemma FlowsOf(ps: Pointers, p: Program, setup: seq<Instr>, phis: map<Value, Incoming>, turn: seq<Instr>, end: Term, exit: Term)
    requires ps.Acyclic() && IsSwap(p, setup, phis, turn, end, exit) && Pieces(ps, setup, phis, turn, end, exit)
    ensures Flows(FlowOf(ps, p))
  {
    var f := FlowOf(ps, p);
    forall n ensures BlockIs(f, n, DefIs(n), UseIs(n), SuccIs(n)) {
      if n in p.blocks {
        OneBlock(ps, p, setup, phis, turn, end, exit, n);
      } else {
        NothingSeen(ps, p, n);
      }
    }
    AllEdges(ps, p, setup, phis, turn, end, exit);
    EntryOf(ps, p);
    SeenFlows(f);
  }

  lemma EntryOf(ps: Pointers, p: Program)
    requires ps.Acyclic()
    ensures FlowOf(ps, p).entry == p.entry
  {
  }

  lemma AllEdges(ps: Pointers, p: Program, setup: seq<Instr>, phis: map<Value, Incoming>, turn: seq<Instr>, end: Term, exit: Term)
    requires ps.Acyclic() && IsSwap(p, setup, phis, turn, end, exit) && Pieces(ps, setup, phis, turn, end, exit)
    ensures forall m, n :: FlowOf(ps, p).Edge(m, n) == EdgeIs(m, n)
  {
    forall m, n ensures FlowOf(ps, p).Edge(m, n) == EdgeIs(m, n) { EdgeSeen(ps, p, phis, m, n); }
  }

  lemma NoDsts()
    ensures Dsts([]) == {}
  {
  }

  lemma SeenFlows(f: Flow)
    requires f.entry == Orig(0) && (forall n :: BlockIs(f, n, DefIs(n), UseIs(n), SuccIs(n)))
    requires forall m, n :: f.Edge(m, n) == EdgeIs(m, n)
    ensures Flows(f)
  {
    forall n ensures f.Def(n) == DefIs(n) && f.Use(n) == UseIs(n) && f.Succ(n) == SuccIs(n) {
      assert BlockIs(f, n, DefIs(n), UseIs(n), SuccIs(n));
    }
  }

  // ----- its pieces -----

  lemma ArgNeedsAre(ps: Pointers, os: seq<Operand>, v: Value)
    requires KnownNeeds(ps) && (os == [Use(v)] || os == [Const(7), Use(v)])
    ensures ArgNeeds(ps, os) == NeedIs(v)
  {
    assert [Use(v)][1..] == [] && [Const(7), Use(v)][1..] == [Use(v)];
    assert ArgNeeds(ps, []) == {};
    assert ArgNeeds(ps, [Use(v)]) == OperandNeeds(ps, Use(v)) + {};
  }

  lemma SetupNeeds(ps: Pointers, setup: seq<Instr>, i: Instr, j: Instr, k: Instr)
    requires KnownNeeds(ps) && setup == [i, j, k] && i.args == [] && j.args == [Use(N)] && k.args == [Use(N)]
    requires i.dst == Some(N) && j.dst == Some(A) && k.dst == Some(B)
    ensures BodyNeeds(ps, setup, Jump(Orig(1))) == {} && Dsts(setup) == Passed()
  {
    ArgNeedsAre(ps, [Use(N)], N);
    JumpTargets(ps, Orig(1));
    assert setup[1..] == [j, k] && [j, k][1..] == [k] && [k][1..] == [];
    assert BodyNeeds(ps, [k], Jump(Orig(1))) == {N};
    assert BodyNeeds(ps, [j, k], Jump(Orig(1))) == {N};
    assert i in setup && j in setup && k in setup;
    assert forall x :: x in setup ==> x == i || x == j || x == k;
  }

  lemma TurnNeeds(ps: Pointers, turn: seq<Instr>, i: Instr, j: Instr, end: Term)
    requires KnownNeeds(ps) && turn == [i, j] && i.args == [Const(7), Use(P)] && j.args == [Use(Q)] && end.args == [Use(C)]
    requires i.dst == None && j.dst == Some(C)
    ensures BodyNeeds(ps, turn, end) == Swapped() + Passed() && Dsts(turn) == {C}
  {
    ArgNeedsAre(ps, [Const(7), Use(P)], P);
    ArgNeedsAre(ps, [Use(Q)], Q);
    ArgNeedsAre(ps, [Use(C)], C);
    assert turn[1..] == [j] && [j][1..] == [];
    assert BodyNeeds(ps, [j], end) == NeedIs(Q) + ({C} - {C});
    assert BodyNeeds(ps, turn, end) == NeedIs(P) + NeedIs(Q);
    assert i in turn && j in turn && forall x :: x in turn ==> x == i || x == j;
  }

  function Partner(x: Value): Value {
    if x == P then Q else if x == Q then P
    else if x == PSize then QSize else if x == QSize then PSize
    else if x == PCount then QCount else PCount
  }

  function FirstOf(x: Value): Operand {
    if x == P then Use(A) else if x == Q then Use(B) else if x == PSize || x == QSize then Const(8) else Use(N)
  }

  /** What each phi takes from both sides. */
  ghost predicate TakesBoth(phis: map<Value, Incoming>) {
    phis.Keys == Swapped() && forall x :: x in phis ==> phis[x] == Both(FirstOf(x), Use(Partner(x)))
  }

  lemma PartnerNeeds(x: Value)
    requires x in Swapped()
    ensures NeedIs(Partner(x)) <= Swapped() + Passed()
  {
  }

  lemma PartnerOf(v: Value) returns (x: Value)
    requires v in Swapped() + Passed()
    ensures x in Swapped() && v in NeedIs(Partner(x))
  {
    x := if v in {P, PSize, PCount} then Q else P;
  }

  function FirstNeeds(x: Value): set<Value> {
    if FirstOf(x).Use? then NeedIs(FirstOf(x).v) else {}
  }

  lemma FirstNeedsPassed(x: Value)
    requires x in Swapped()
    ensures FirstNeeds(x) <= Passed()
  {
  }

  lemma FirstFor(v: Value) returns (x: Value)
    requires v in Passed()
    ensures x in Swapped() && v in FirstNeeds(x)
  {
    x := if v == B then Q else P;
  }

  /** What a phi takes, whatever its name. */
  lemma TakenBy(ps: Pointers, phis: map<Value, Incoming>, x: Value, m: Label, v: Value)
    requires KnownNeeds(ps) && x in phis && phis[x] == Both(FirstOf(x), Use(Partner(x)))
    ensures PhiTakes(ps, phis, x, m, v) <==>
            v in (if m == Orig(0) then FirstNeeds(x) else if m == Orig(2) then NeedIs(Partner(x)) else {})
  {
    assert m in phis[x] <==> m == Orig(0) || m == Orig(2);
  }

  lemma FirstTaken(ps: Pointers, phis: map<Value, Incoming>, v: Value)
    requires KnownNeeds(ps) && TakesBoth(phis)
    ensures v in PhiNeeds(ps, phis, Orig(0)) <==> v in Passed()
  {
    PhiNeedsExactly(ps, phis, Orig(0), v);
    if v in Passed() {
      var x := FirstFor(v);
      TakenBy(ps, phis, x, Orig(0), v);
    }
    if x :| PhiTakes(ps, phis, x, Orig(0), v) {
      TakenBy(ps, phis, x, Orig(0), v);
      FirstNeedsPassed(x);
    }
  }

  lemma AgainTaken(ps: Pointers, phis: map<Value, Incoming>, v: Value)
    requires KnownNeeds(ps) && TakesBoth(phis)
    ensures v in PhiNeeds(ps, phis, Orig(2)) <==> v in Swapped() + Passed()
  {
    PhiNeedsExactly(ps, phis, Orig(2), v);
    if v in Swapped() + Passed() {
      var x := PartnerOf(v);
      TakenBy(ps, phis, x, Orig(2), v);
    }
    if x :| PhiTakes(ps, phis, x, Orig(2), v) {
      TakenBy(ps, phis, x, Orig(2), v);
      PartnerNeeds(x);
    }
  }

  lemma NothingTaken(ps: Pointers, phis: map<Value, Incoming>, m: Label, v: Value)
    requires KnownNeeds(ps) && TakesBoth(phis) && m != Orig(0) && m != Orig(2)
    ensures v !in PhiNeeds(ps, phis, m)
  {
    PhiNeedsExactly(ps, phis, m, v);
    if x :| PhiTakes(ps, phis, x, m, v) { TakenBy(ps, phis, x, m, v); }
  }

  lemma PhisTake(ps: Pointers, phis: map<Value, Incoming>, m: Label)
    requires KnownNeeds(ps) && TakesBoth(phis)
    ensures PhiNeeds(ps, phis, m) == TakenIs(m)
  {
    forall v ensures v in PhiNeeds(ps, phis, m) <==> v in TakenIs(m) {
      if m == Orig(0) {
        FirstTaken(ps, phis, v);
      } else if m == Orig(2) {
        AgainTaken(ps, phis, v);
      } else {
        NothingTaken(ps, phis, m, v);
      }
    }
  }

  lemma Targets()
    ensures TermTargets(End()) == {Orig(1), Orig(3)} && TermTargets(Exit()) == {}
  {
    assert (0, Orig(3)) in End().cases;
    assert (0, Orig(3)).1 in TermTargets(End());
  }

  lemma PiecesOf(ps: Pointers, setup: seq<Instr>, phis: map<Value, Incoming>, turn: seq<Instr>, end: Term, exit: Term)
    requires KnownNeeds(ps) && TakesBoth(phis)
    requires Dsts(setup) == Passed() && BodyNeeds(ps, setup, Jump(Orig(1))) == {}
    requires Dsts(turn) == {C} && BodyNeeds(ps, turn, end) == Swapped() + Passed() && TermTargets(end) == {Orig(1), Orig(3)}
    requires exit.args == [Use(C)] && TermTargets(exit) == {}
    ensures Pieces(ps, setup, phis, turn, end, exit)
  {
    forall m ensures PhiNeeds(ps, phis, m) == TakenIs(m) { PhisTake(ps, phis, m); }
    ArgNeedsAre(ps, [Use(C)], C);
  }

  lemma PiecesAre(ps: Pointers)
    requires KnownNeeds(ps)
    ensures Pieces(ps, Setup(), Swaps(), Turn(), End(), Exit())
  {
    SetupNeeds(ps, Setup(), Setup()[0], Setup()[1], Setup()[2]);
    TurnNeeds(ps, Turn(), Turn()[0], Turn()[1], End());
    SwapsTake();
    Targets();
    PiecesOf(ps, Setup(), Swaps(), Turn(), End(), Exit());
  }

  lemma SwapsTake()
    ensures TakesBoth(Swaps())
  {
    forall x | x in Swapped() ensures x in Swaps() && Swaps()[x] == Both(FirstOf(x), Use(Partner(x))) {
      if x == P || x == Q {
      } else if x == PSize || x == QSize {
      }
    }
  }

  lemma SwapFlows(ps: Pointers)
    requires KnownNeeds(ps)
    ensures Flows(FlowOf(ps, Swap()))
  {
    PiecesAre(ps);
    SwapIsSwap();
    FlowsOf(ps, Swap(), Setup(), Swaps(), Turn(), End(), Exit());
  }

  lemma SwapIsSwap()
    ensures IsSwap(Swap(), Setup(), Swaps(), Turn(), End(), Exit())
  {
  }

  // ----- everything the pass asks for -----

  lemma SwapIsSSA(ps: Pointers, p: Program)
    requires ps.Acyclic() && ScalarSizes(ps) && Flows(FlowOf(ps, p)) && p.args == {}
    requires p.blocks.Keys == {Orig(0), Orig(1), Orig(2), Orig(3)}
    ensures SSA(ps, p)
  {
    var f := FlowOf(ps, p);
    IsStrict(f);
    DefinedOnce(f);
    AllReachable(f);
  }

  lemma NeedsOrdered(ps: Pointers, p: Program)
    requires KnownNeeds(ps) && Flows(FlowOf(ps, p))
    ensures NeedsDominate(ps, p)
  {
    forall q, a | a in PointerUses(ps, q) && a != q ensures Dominates(FlowOf(ps, p), a, q) {
      assert a in Needs(ps, q);
      NeedsComeFirst(FlowOf(ps, p), q, a);
    }
  }

  lemma SharedAreLive(ps: Pointers, p: Program, setup: seq<Instr>, phis: map<Value, Incoming>, turn: seq<Instr>, end: Term, exit: Term)
    requires KnownNeeds(ps) && TakesBoth(phis) && Flows(FlowOf(ps, p)) && IsSwap(p, setup, phis, turn, end, exit)
    ensures SharedUsesLive(ps, p)
  {
    var f := FlowOf(ps, p);
    forall n, k, m, v | n in p.blocks && k != m && v in PhiNeeds(ps, p.blocks[n].phis, k) && v in PhiNeeds(ps, p.blocks[n].phis, m)
      ensures v in f.Def(m) || LiveIn(Ordinary(f), v, n)
    {
      if n == Orig(1) {
        PhisTake(ps, phis, k);
        PhisTake(ps, phis, m);
        SharedIsLive(f, k, m, v);
      }
    }
  }

  lemma CodeOk(p: Program, b: Block, succ: set<Label>)
    requires b.phis == map[] && Sources(Dsts(b.body)) && (forall i :: i in b.body ==> !i.op.CallsRuntime())
    requires TermTargets(b.term) == succ && succ <= p.blocks.Keys && p.entry !in succ
    ensures BlockOk(p, b)
  {
  }

  lemma PhisOk(p: Program, phis: map<Value, Incoming>, next: Label)
    requires TakesBoth(phis) && Orig(0) in p.blocks && Orig(2) in p.blocks && next in p.blocks && next != p.entry
    ensures BlockOk(p, Block(phis, [], Jump(next)))
  {
    NoDsts();
    assert TermTargets(Jump(next)) == {next};
    forall x | x in phis ensures phis[x].Keys <= p.blocks.Keys { assert phis[x] == Both(FirstOf(x), Use(Partner(x))); }
  }

  lemma BlocksAreOk(p: Program, setup: seq<Instr>, phis: map<Value, Incoming>, turn: seq<Instr>, end: Term, exit: Term, l: Label)
    requires IsSwap(p, setup, phis, turn, end, exit) && TakesBoth(phis) && l in p.blocks
    requires Dsts(setup) == Passed() && Dsts(turn) == {C} && TermTargets(end) == {Orig(1), Orig(3)} && TermTargets(exit) == {}
    requires (forall i :: i in setup ==> !i.op.CallsRuntime()) && (forall i :: i in turn ==> !i.op.CallsRuntime())
    ensures BlockOk(p, p.blocks[l]) && TermTargets(p.blocks[l].term) == SuccIs(l)
  {
    assert TermTargets(Jump(Orig(1))) == {Orig(1)} && TermTargets(Jump(Orig(2))) == {Orig(2)};
    if l == Orig(1) {
      PhisOk(p, phis, Orig(2));
    } else {
      NoDsts();
      CodeOk(p, p.blocks[l], SuccIs(l));
    }
  }

  lemma SwapIsProgram(p: Program, setup: seq<Instr>, phis: map<Value, Incoming>, turn: seq<Instr>, end: Term, exit: Term)
    requires IsSwap(p, setup, phis, turn, end, exit) && TakesBoth(phis)
    requires Dsts(setup) == Passed() && Dsts(turn) == {C} && TermTargets(end) == {Orig(1), Orig(3)} && TermTargets(exit) == {}
    requires (forall i :: i in setup ==> !i.op.CallsRuntime()) && (forall i :: i in turn ==> !i.op.CallsRuntime())
    ensures ProgramOk(p) && PhisExact(p)
  {
    AllBlocksOk(p, setup, phis, turn, end, exit);
    SwapEdges(p, setup, phis, turn, end, exit);
    ProgramIsOk(p);
  }

  lemma AllBlocksOk(p: Program, setup: seq<Instr>, phis: map<Value, Incoming>, turn: seq<Instr>, end: Term, exit: Term)
    requires IsSwap(p, setup, phis, turn, end, exit) && TakesBoth(phis)
    requires Dsts(setup) == Passed() && Dsts(turn) == {C} && TermTargets(end) == {Orig(1), Orig(3)} && TermTargets(exit) == {}
    requires (forall i :: i in setup ==> !i.op.CallsRuntime()) && (forall i :: i in turn ==> !i.op.CallsRuntime())
    ensures forall l :: l in p.blocks ==> l.Orig? && BlockOk(p, p.blocks[l])
  {
    forall l | l in p.blocks ensures l.Orig? && BlockOk(p, p.blocks[l]) { BlocksAreOk(p, setup, phis, turn, end, exit, l); }
  }

  lemma SwapEdges(p: Program, setup: seq<Instr>, phis: map<Value, Incoming>, turn: seq<Instr>, end: Term, exit: Term)
    requires IsSwap(p, setup, phis, turn, end, exit) && TakesBoth(phis)
    requires Dsts(setup) == Passed() && Dsts(turn) == {C} && TermTargets(end) == {Orig(1), Orig(3)} && TermTargets(exit) == {}
    requires (forall i :: i in setup ==> !i.op.CallsRuntime()) && (forall i :: i in turn ==> !i.op.CallsRuntime())
    ensures PhisComplete(p) && PhisExact(p)
  {
    forall l | l in p.blocks ensures TermTargets(p.blocks[l].term) == SuccIs(l) && (l != Orig(1) ==> p.blocks[l].phis == map[]) {
      BlocksAreOk(p, setup, phis, turn, end, exit, l);
    }
    BothEdges(p, phis);
  }

  lemma ProgramIsOk(p: Program)
    requires p.entry in p.blocks && p.blocks[p.entry].phis == map[] && p.args == {} && PhisComplete(p)
    requires forall l :: l in p.blocks ==> l.Orig? && BlockOk(p, p.blocks[l])
    ensures ProgramOk(p)
  {
  }

  lemma BothEdges(p: Program, phis: map<Value, Incoming>)
    requires p.blocks.Keys == {Orig(0), Orig(1), Orig(2), Orig(3)} && p.blocks[Orig(1)].phis == phis && TakesBoth(phis)
    requires forall l :: l in p.blocks ==> TermTargets(p.blocks[l].term) == SuccIs(l) && (l != Orig(1) ==> p.blocks[l].phis == map[])
    ensures PhisComplete(p) && PhisExact(p)
  {
    forall x | x in phis ensures phis[x].Keys == {Orig(0), Orig(2)} { assert phis[x] == Both(FirstOf(x), Use(Partner(x))); }
    forall m | m in p.blocks && Orig(1) in SuccIs(m) ensures m == Orig(0) || m == Orig(2) { }
  }

  ghost predicate SwapTypes(ps: Pointers, ty: Types) {
    && ps.info.Keys == {A, B, P, Q} && (forall v :: v !in ps.info ==> ty.Width(v) == 64 || v !in Swapped() + {N, C})
    && ty.OriginOf(A).Heap? && ty.OriginOf(B).Heap? && ty.OriginOf(P).Derived? && ty.OriginOf(Q).Derived?
    && ps.info[A] == PointerInfo(Const(8), Use(N), [A]) && ps.info[B] == PointerInfo(Const(8), Use(N), [B])
    && ps.info[P] == PointerInfo(Use(PSize), Use(PCount), [A, B]) && ps.info[Q] == PointerInfo(Use(QSize), Use(QCount), [A, B])
  }

  lemma SizePow()
    ensures 8 < Pow2(64)
  {
    assert Pow2(4) == 16;
    PowFour(60);
  }

  lemma {:induction false} PowFour(n: nat)
    ensures Pow2(n + 4) >= 16
  {
    if n > 0 {
      PowFour(n - 1);
    } else {
      assert Pow2(4) == 2 * Pow2(3) && Pow2(3) == 2 * Pow2(2) && Pow2(2) == 2 * Pow2(1) && Pow2(1) == 2 * Pow2(0);
    }
  }

  lemma ScalarTyped(ps: Pointers, ty: Types, phis: map<Value, Incoming>, x: Value, m: Label)
    requires SwapTypes(ps, ty) && x in {PSize, QSize, PCount, QCount} && x in phis && m in phis[x]
    requires phis[x] == Both(FirstOf(x), Use(Partner(x)))
    ensures PhiTyped(ps, ty, phis, x, m)
  {
    SizePow();
    assert ty.Width(x) == 64 && x !in ps.info;
    if m == Orig(0) {
      FirstScalar(ps, ty, x);
    } else {
      AgainScalar(ps, ty, x);
    }
  }

  lemma FirstScalar(ps: Pointers, ty: Types, x: Value)
    requires SwapTypes(ps, ty) && x in {PSize, QSize, PCount, QCount} && 8 < Pow2(64)
    ensures ScalarFits(ps, ty, 64, FirstOf(x))
  {
  }

  lemma AgainScalar(ps: Pointers, ty: Types, x: Value)
    requires SwapTypes(ps, ty) && x in {PSize, QSize, PCount, QCount}
    ensures ScalarFits(ps, ty, 64, Use(Partner(x)))
  {
  }

  lemma PointerTyped(ps: Pointers, ty: Types, phis: map<Value, Incoming>, x: Value, m: Label, size: Value, count: Value)
    requires SwapTypes(ps, ty) && x in {P, Q} && x in phis && m in phis[x] && size in phis && count in phis
    requires size == (if x == P then PSize else QSize) && count == (if x == P then PCount else QCount)
    requires phis[x] == Both(FirstOf(x), Use(Partner(x))) && phis[size] == Both(Const(8), Use(Partner(size)))
    requires phis[count] == Both(Use(N), Use(Partner(count)))
    ensures PhiTyped(ps, ty, phis, x, m)
  {
    assert m == Orig(0) || m == Orig(2);
  }

  lemma PhisAreTyped(ps: Pointers, ty: Types, phis: map<Value, Incoming>, x: Value, m: Label)
    requires SwapTypes(ps, ty) && TakesBoth(phis) && x in phis && m in phis[x]
    ensures PhiTyped(ps, ty, phis, x, m)
  {
    if x == P {
      PointerTyped(ps, ty, phis, x, m, PSize, PCount);
    } else if x == Q {
      PointerTyped(ps, ty, phis, x, m, QSize, QCount);
    } else {
      ScalarTyped(ps, ty, phis, x, m);
    }
  }

  lemma SetupTyped(ps: Pointers, ty: Types, setup: seq<Instr>, i: Instr, j: Instr, k: Instr)
    requires SwapTypes(ps, ty) && setup == [i, j, k]
    requires i == Instr(Some(N), Arith(0, 64), []) && j == Instr(Some(A), NewHeap, [Use(N)]) && k == Instr(Some(B), NewHeap, [Use(N)])
    ensures BlockTyped(ps, ty, Block(map[], setup, Jump(Orig(1))))
  {
    assert setup[1..] == [j, k] && [j, k][1..] == [k] && [k][1..] == [];
    assert SizesFirst(ps, []);
    assert Dsts([k]) == {B} && Dsts([j, k]) == {A, B} by {
      DstsExactly([k], N);
      DstsExactly([j, k], N);
      assert k in [k] && j in [j, k] && k in [j, k];
    }
    assert N !in Dsts([k]) && N !in Dsts([j, k]);
    assert SizesFirst(ps, [k]);
    assert SizesFirst(ps, [j, k]);
    assert SizeUses(ps, N) == {};
  }

  lemma TurnTyped(ps: Pointers, ty: Types, turn: seq<Instr>, i: Instr, j: Instr, end: Term)
    requires SwapTypes(ps, ty) && turn == [i, j] && i.dst.None? && j == Instr(Some(C), Read(0, 64), [Use(Q)])
    ensures BlockTyped(ps, ty, Block(map[], turn, end))
  {
    assert turn[1..] == [j] && [j][1..] == [];
    assert SizesFirst(ps, []);
    assert SizeUses(ps, C) == {};
    assert SizesFirst(ps, [j]);
  }

  lemma RestTyped(ps: Pointers, ty: Types, phis: map<Value, Incoming>, exit: Term)
    requires SwapTypes(ps, ty) && TakesBoth(phis)
    ensures BlockTyped(ps, ty, Block(phis, [], Jump(Orig(2)))) && BlockTyped(ps, ty, Block(map[], [], exit))
  {
    NoDsts();
    forall x, m | x in phis && m in phis[x] ensures PhiTyped(ps, ty, phis, x, m) { PhisAreTyped(ps, ty, phis, x, m); }
  }

  lemma SwapIsTyped(ps: Pointers, ty: Types, p: Program)
    requires SwapTypes(ps, ty) && IsSwap(p, Setup(), Swaps(), Turn(), End(), Exit())
    ensures Typed(ps, ty, p) && KnownAliases(ps) && ScalarSizes(ps)
  {
    SwapsTake();
    SetupTyped(ps, ty, Setup(), Setup()[0], Setup()[1], Setup()[2]);
    TurnTyped(ps, ty, Turn(), Turn()[0], Turn()[1], End());
    RestTyped(ps, ty, Swaps(), Exit());
    PointersTyped(ps, ty);
    AllTyped(ps, ty, p, Setup(), Swaps(), Turn(), End(), Exit());
  }

  lemma AllTyped(ps: Pointers, ty: Types, p: Program, setup: seq<Instr>, phis: map<Value, Incoming>, turn: seq<Instr>, end: Term, exit: Term)
    requires IsSwap(p, setup, phis, turn, end, exit) && OriginsFit(ps, ty)
    requires BlockTyped(ps, ty, Block(map[], setup, Jump(Orig(1)))) && BlockTyped(ps, ty, Block(map[], turn, end))
    requires BlockTyped(ps, ty, Block(phis, [], Jump(Orig(2)))) && BlockTyped(ps, ty, Block(map[], [], exit))
    ensures Typed(ps, ty, p)
  {
  }

  lemma PointersTyped(ps: Pointers, ty: Types)
    requires SwapTypes(ps, ty)
    ensures OriginsFit(ps, ty) && KnownAliases(ps) && ScalarSizes(ps)
  {
  }

  lemma OwnOperations()
    ensures (forall i :: i in Setup() ==> !i.op.CallsRuntime()) && (forall i :: i in Turn() ==> !i.op.CallsRuntime())
  {
  }

  lemma AnalysisFits()
    ensures SwapTypes(Analysis(), Kinds())
  {
  }

  /** The loop that swaps its pointers is a function the pass can take, with its body as a header. */
  lemma SwapIsOk()
    ensures FunctionOk(Analysis(), Kinds(), Swap()) && HeadersOk(Swap(), [Orig(2)])
  {
    var ps, ty, p := Analysis(), Kinds(), Swap();
    NeedsAre();
    AnalysisFits();
    SwapFlows(ps);
    PiecesAre(ps);
    SwapsTake();
    SwapIsSwap();
    OwnOperations();
    SwapIsProgram(p, Setup(), Swaps(), Turn(), End(), Exit());
    SwapIsTyped(ps, ty, p);
    SwapIsSSA(ps, p);
    NeedsOrdered(ps, p);
    SharedAreLive(ps, p, Setup(), Swaps(), Turn(), End(), Exit());
  }
}
