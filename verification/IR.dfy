/**
  The part of the intermediate representation the pass works on: blocks with parallel
  phis, straight-line instructions and a switch, and what running them does.
 */
module IR {
  import opened Records
  import opened Bits
  import opened RestartSide

  /** A basic block: one of the function, or one that the pass adds for it. */
  datatype Label = Orig(id: nat) | Checkpoint(id: nat) | Restart(id: nat) | NoCREntry

  /** An SSA name: one of the function, or one that the pass makes for it. */
  datatype Value = Src(id: nat) | LivePhi(of: Value, at: Label) | Restored(of: Value, at: Label) | ResumeLabel

  datatype Operand = Const(k: nat) | Use(v: Value)

  /** Scalars are unsigned words; a pointer names an allocation and an offset in it. */
  datatype Data = Int(i: nat) | Ptr(alloc: nat, off: int)

  datatype Op =
    | Arith(f: nat, width: nat)
    | Offset(f: nat)
    | Cast
    | PtrEq
    | NewStack(elemBits: nat, count: nat)
    | NewHeap
    | Read(f: nat, width: nat)
    | Write(f: nat)
    // calls into the runtime
    | GetLabel
    | SaveStart
    | SaveScalar(width: nat)
    | SavePointer
    | SaveAlias
    | SaveFinish
    | LoadScalar(width: nat)
    | LoadPointer
    | LoadAlias
    | LoadFinish
  {
    predicate Allocates() { NewStack? || NewHeap? }

    predicate CallsRuntime() {
      !Arith? && !Offset? && !Cast? && !PtrEq? && !NewStack? && !NewHeap? && !Read? && !Write?
    }
  }

  datatype Instr = Instr(dst: Option<Value>, op: Op, args: seq<Operand>)

  /** A switch on its first argument, or a return when there is no default target. */
  datatype Term = Term(args: seq<Operand>, cases: seq<(nat, Label)>, default: Option<Label>)

  /** The incoming operand of a phi for each predecessor. */
  type Incoming = map<Label, Operand>

  datatype Block = Block(phis: map<Value, Incoming>, body: seq<Instr>, term: Term)

  datatype Program = Program(blocks: map<Label, Block>, entry: Label, args: set<Value>)

  // ----- meaning -----

  /** The record files, as functions: what is written for some bits or a record number, and what is read back. */
  datatype Codec = Codec(
    pointer: (nat, nat, BitString) -> File,
    readPointer: (nat, nat, File) -> Option<BitString>,
    alias: (nat, nat, nat) -> File,
    readAlias: File -> Option<nat>)

  /** The meaning of the operations that do not matter here, and of the record files. */
  datatype Sem = Sem(
    arith: (nat, seq<nat>) -> nat,
    offset: (nat, int, seq<nat>) -> int,
    read: (nat, BitString, int) -> nat,
    write: (nat, BitString, int, nat) -> BitString,
    fill: nat -> BitString,
    codec: Codec)

  /** What a checkpoint consists of: the label and the record count announced, and the record files. */
  datatype Attempted = Attempted(labelNumber: nat, count: nat, files: seq<File>)

  /**
    The runtime as the function sees it: the label to resume at, the records to be read, the pointers read so far, and
    whether reading has failed or is over; the label and record count announced for the attempt under way, its records,
    and the attempts that were completed.
   */
  datatype IO = IO(
    resume: Option<nat>,
    input: seq<File>,
    table: seq<Data>,
    aborted: bool,
    restarted: bool,
    info: Option<(nat, nat)>,
    output: seq<File>,
    failed: bool,
    completed: seq<Attempted>)

  datatype World = World(cells: map<nat, BitString>, next: nat, io: IO)

  type Env = map<Value, Data>

  function Pow2(n: nat): (r: nat)
    ensures r > 0
  {
    if n == 0 then 1 else 2 * Pow2(n - 1)
  }

  /** The low `width` bits of a number, lowest first. */
  function IntBits(i: nat, width: nat): (bits: BitString)
    ensures |bits| == width
  {
    if width == 0 then [] else [i % 2 == 1] + IntBits(i / 2, width - 1)
  }

  function BitsInt(bits: BitString): nat {
    if bits == [] then 0 else (if bits[0] then 1 else 0) + 2 * BitsInt(bits[1..])
  }

  lemma {:induction false} IntBitsRoundTrip(i: nat, width: nat)
    requires i < Pow2(width)
    ensures BitsInt(IntBits(i, width)) == i
  {
    if width > 0 {
      IntBitsRoundTrip(i / 2, width - 1);
      assert IntBits(i, width)[1..] == IntBits(i / 2, width - 1);
    }
  }

  function IntOf(d: Data): nat {
    if d.Int? then d.i else 0
  }

  function Ints(ds: seq<Data>): (ns: seq<nat>)
    ensures |ns| == |ds|
  {
    seq(|ds|, i requires 0 <= i < |ds| => IntOf(ds[i]))
  }

  /** New memory holds whatever an allocation of its size holds. */
  function Fill(sem: Sem, n: nat): (bits: BitString)
    ensures |bits| == n
  {
    var bits := sem.fill(n);
    if |bits| == n then bits else seq(n, _ => false)
  }

  function Allocate(sem: Sem, bits: nat, w: World): (Data, World) {
    (Ptr(w.next, 0), w.(cells := w.cells[w.next := Fill(sem, bits)], next := w.next + 1))
  }

  function Arg(args: seq<Data>, i: nat): Data {
    if i < |args| then args[i] else Int(0)
  }

  predicate Points(w: World, d: Data) {
    d.Ptr? && d.alloc in w.cells
  }

  /** One operation of the function itself. */
  function Exec(sem: Sem, op: Op, args: seq<Data>, w: World): (Data, World)
  {
    match op
    case Arith(f, width) => (Int(sem.arith(f, Ints(args)) % Pow2(width)), w)
    case Offset(f) =>
      var base := Arg(args, 0);
      if base.Ptr? then (Ptr(base.alloc, sem.offset(f, base.off, Ints(args))), w) else (Int(0), w)
    case Cast => (if Arg(args, 0).Ptr? then Arg(args, 0) else Int(0), w)
    case PtrEq => (Int(if Arg(args, 0) == Arg(args, 1) then 1 else 0), w)
    case NewStack(elemBits, count) => Allocate(sem, Product(elemBits, count), w)
    case NewHeap => Allocate(sem, Product(8, IntOf(Arg(args, 0))), w)
    case Read(f, width) =>
      var p := Arg(args, 0);
      (Int((if Points(w, p) then sem.read(f, w.cells[p.alloc], p.off) else 0) % Pow2(width)), w)
    case Write(f) =>
      var p := Arg(args, 1);
      if !Points(w, p) then (Int(0), w)
      else
        var bits := sem.write(f, w.cells[p.alloc], p.off, IntOf(Arg(args, 0)));
        (Int(0), if |bits| == |w.cells[p.alloc]| then w.(cells := w.cells[p.alloc := bits]) else w)
    case _ => ExecIO(sem, op, args, w)
  }

  /** The candidates of an alias call: size, element count, record number and pointer each. */
  function Candidates(args: seq<Data>): seq<Candidate<Data>> {
    if |args| < 4 then [] else [Candidate(IntOf(args[2]), args[3])] + Candidates(args[4..])
  }

  function Emit(w: World, file: File, live: bool): World {
    if w.io.failed then w else w.(io := w.io.(output := w.io.output + [file], failed := !live))
  }

  function Abort(w: World): World {
    w.(io := w.io.(aborted := true))
  }

  /** `__acriilCheckpointFinish`: the attempt counts, with what it has written, unless a lookup has failed. */
  function FinishAttempt(w: World): World {
    if w.io.failed || w.io.info.None? then w
    else
      var attempt := Attempted(w.io.info.value.0, w.io.info.value.1, w.io.output);
      w.(io := w.io.(completed := w.io.completed + [attempt]))
  }

  /** `__acriilRestartFinish`: the table of pointers is freed, and no record can be read any more. */
  function FinishRestart(w: World): World {
    if w.io.aborted then w else w.(io := w.io.(table := [], restarted := true))
  }

  predicate RestartIsOver(io: IO) {
    io.restarted && !io.aborted && io.table == []
  }

  /** The next record file, until reading has failed or is over. */
  function NextInput(io: IO): Option<File> {
    if io.aborted || io.restarted then None else NextFile(io.input, io.table)
  }

  function Remember(w: World, d: Data): World {
    w.(io := w.io.(table := w.io.table + [d]))
  }

  /** The bits of a record, when the next file holds them. */
  function InputBits(sem: Sem, size: nat, count: nat, io: IO): Option<BitString> {
    var file := NextInput(io);
    if file.None? then None else sem.codec.readPointer(size, count, file.value)
  }

  function InputAlias(sem: Sem, io: IO): Option<Data> {
    Aliased(sem.codec.readAlias, NextInput(io), io.table)
  }

  /** A call into the runtime.  Whether an attempt is performed at all is decided elsewhere; here it is. */
  function ExecIO(sem: Sem, op: Op, args: seq<Data>, w: World): (Data, World) {
    match op
    case GetLabel => (Int(if w.io.resume.Some? then w.io.resume.value else 0xFFFF_FFFF_FFFF_FFFF), w)
    case SaveStart =>
      (Int(0), w.(io := w.io.(info := Some((IntOf(Arg(args, 0)), IntOf(Arg(args, 1)))), output := [], failed := false)))
    case SaveScalar(width) =>
      (Int(0), Emit(w, sem.codec.pointer(width, 1, IntBits(IntOf(Arg(args, 0)), width)), true))
    case SavePointer =>
      var size, count, p := IntOf(Arg(args, 0)), IntOf(Arg(args, 1)), Arg(args, 2);
      if Points(w, p) && TotalBits(size, count) <= |w.cells[p.alloc]|
      then (Int(0), Emit(w, sem.codec.pointer(size, count, w.cells[p.alloc][..TotalBits(size, count)]), true))
      else (Int(0), Emit(w, sem.codec.pointer(size, count, []), false))
    case SaveAlias =>
      var size, count, p := IntOf(Arg(args, 0)), IntOf(Arg(args, 1)), Arg(args, 2);
      var found := FirstMatch(Candidates(if |args| < 3 then [] else args[3..]), p);
      (Int(0), Emit(w, sem.codec.alias(size, count, LabelOf(found)), found.Some?))
    case SaveFinish => (Int(0), FinishAttempt(w))
    case LoadScalar(width) =>
      var bits := InputBits(sem, width, 1, w.io);
      if bits.None? then (Int(0), Abort(w)) else (Int(BitsInt(bits.value)), Remember(w, Int(0)))
    case LoadPointer =>
      var size, count, p := IntOf(Arg(args, 0)), IntOf(Arg(args, 1)), Arg(args, 2);
      var bits := InputBits(sem, size, count, w.io);
      if bits.None? || !Points(w, p) || |bits.value| > |w.cells[p.alloc]| then (Int(0), Abort(w))
      else
        var cell := bits.value + w.cells[p.alloc][|bits.value|..];
        (Int(0), Remember(w.(cells := w.cells[p.alloc := cell]), p))
    case LoadAlias =>
      var d := InputAlias(sem, w.io);
      if d.None? then (Int(0), Abort(w)) else (d.value, Remember(w, d.value))
    case LoadFinish => (Int(0), FinishRestart(w))
    case _ => (Int(0), w)
  }

  function Eval(env: Env, o: Operand): Data {
    match o
    case Const(k) => Int(k)
    case Use(v) => Get(env, v)
  }

  function Get(env: Env, v: Value): Data {
    if v in env then env[v] else Int(0)
  }

  function EvalAll(env: Env, os: seq<Operand>): (ds: seq<Data>)
    ensures |ds| == |os|
  {
    seq(|os|, i requires 0 <= i < |os| => Eval(env, os[i]))
  }

  function Assign(env: Env, dst: Option<Value>, d: Data): Env {
    if dst.Some? then env[dst.value := d] else env
  }

  function RunInstr(sem: Sem, i: Instr, env: Env, w: World): (Env, World) {
    var (d, w') := Exec(sem, i.op, EvalAll(env, i.args), w);
    (Assign(env, i.dst, d), w')
  }

  function RunBody(sem: Sem, body: seq<Instr>, env: Env, w: World): (Env, World)
    decreases |body|
  {
    if body == [] then (env, w)
    else
      var (env', w') := RunInstr(sem, body[0], env, w);
      RunBody(sem, body[1..], env', w')
  }

  /** All phis read the environment of the edge before any of them is assigned. */
  function RunPhis(phis: map<Value, Incoming>, pred: Label, env: Env): Env {
    env + map x | x in phis :: if pred in phis[x] then Eval(env, phis[x][pred]) else Int(0)
  }

  function Choose(cases: seq<(nat, Label)>, default: Label, key: nat): Label {
    if cases == [] then default
    else if cases[0].0 == key then cases[0].1
    else Choose(cases[1..], default, key)
  }

  function Target(t: Term, env: Env): Option<Label> {
    if t.default.None? then None
    else Some(Choose(t.cases, t.default.value, IntOf(Arg(EvalAll(env, t.args), 0))))
  }

  /** Control is about to enter block `at` from block `pred`. */
  datatype State = State(pred: Label, at: Label, env: Env, world: World)

  function Step(sem: Sem, p: Program, s: State): Option<State> {
    if s.at !in p.blocks then None
    else
      var b := p.blocks[s.at];
      var (env, w) := RunBody(sem, b.body, RunPhis(b.phis, s.pred, s.env), s.world);
      var next := Target(b.term, env);
      if next.None? then None else Some(State(s.at, next.value, env, w))
  }

  /** What a function leaves when it returns: the memory, and the returned values. */
  datatype Exit = Exit(world: World, values: seq<Data>)

  /** The exit of a block, once its code has run; none when control goes on. */
  function ExitOf(t: Term, env: Env, w: World): Option<Exit> {
    if t.default.None? then Some(Exit(w, EvalAll(env, t.args))) else None
  }

  /** What the block about to be entered returns, if it does. */
  function Returned(sem: Sem, p: Program, s: State): Option<Exit> {
    if s.at !in p.blocks then None
    else
      var b := p.blocks[s.at];
      var (env, w) := RunBody(sem, b.body, RunPhis(b.phis, s.pred, s.env), s.world);
      ExitOf(b.term, env, w)
  }

  /** Running a block, as a function of the state alone. */
  type Stepper = State -> Option<State>

  function Steps(sem: Sem, p: Program): Stepper {
    (s: State) => Step(sem, p, s)
  }

  /** The state after `k` blocks, if the run gets that far. */
  function Run(step: Stepper, s: State, k: nat): Option<State>
    decreases k
  {
    if k == 0 then Some(s)
    else
      var t := step(s);
      if t.None? then None else Run(step, t.value, k - 1)
  }

  /** The blocks a run enters, in order. */
  function Trace(step: Stepper, s: State, k: nat): seq<Label>
    decreases k
  {
    if k == 0 then []
    else
      var next := step(s);
      [s.at] + if next.None? then [] else Trace(step, next.value, k - 1)
  }

  /** Of those, the blocks of the function. */
  function Visible(step: Stepper, s: State, k: nat): seq<Label>
    decreases k
  {
    if k == 0 then []
    else
      var next := step(s);
      (if s.at.Orig? then [s.at] else []) + if next.None? then [] else Visible(step, next.value, k - 1)
  }

  // ----- syntax -----

  function TermTargets(t: Term): set<Label> {
    if t.default.None? then {} else {t.default.value} + set c | c in t.cases :: c.1
  }

  lemma {:induction false} ChooseIsTarget(cases: seq<(nat, Label)>, default: Label, key: nat)
    ensures Choose(cases, default, key) == default || exists c :: c in cases && c.1 == Choose(cases, default, key)
  {
    if cases != [] {
      if cases[0].0 == key {
        assert cases[0] in cases;
      } else {
        ChooseIsTarget(cases[1..], default, key);
        if c :| c in cases[1..] && c.1 == Choose(cases[1..], default, key) {
          assert c in cases;
        }
      }
    }
  }

  lemma TargetIsSuccessor(t: Term, env: Env)
    ensures Target(t, env).Some? ==> Target(t, env).value in TermTargets(t)
  {
    if t.default.Some? {
      ChooseIsTarget(t.cases, t.default.value, IntOf(Arg(EvalAll(env, t.args), 0)));
    }
  }

  function Dsts(body: seq<Instr>): set<Value> {
    set i | i in body && i.dst.Some? :: i.dst.value
  }

  function OperandUses(o: Operand): set<Value> {
    if o.Use? then {o.v} else {}
  }

  function ArgUses(os: seq<Operand>): set<Value> {
    set o | o in os && o.Use? :: o.v
  }
}
