/**
  Running the emitted saves, and then the emitted restores in another process, rebuilds the
  saved values and allocations, up to the names of the allocations.
 */
module SaveRestore {
  import opened Records
  import opened Bits
  import opened IR
  import opened Pointers
  import opened Renaming
  import opened Emission
  import opened Typing

  // ----- what is written -----

  function SizeOf(ps: Pointers, env: Env, v: Value): nat {
    if v in ps.info then IntOf(Eval(env, ps.info[v].typeSizeInBits)) else 0
  }

  function CountOf(ps: Pointers, env: Env, v: Value): nat {
    if v in ps.info then IntOf(Eval(env, ps.info[v].numElements)) else 0
  }

  /** The record of the first alias that points where `d` points. */
  function FoundIn(env: Env, before: Order, aliases: seq<Value>, d: Data): Option<nat> {
    if aliases == [] then None
    else if Get(env, aliases[0]) == d then Some(Index(before, aliases[0]))
    else FoundIn(env, before, aliases[1..], d)
  }

  /** The lookup succeeds exactly when some alias points there, and then with the record of the first that does. */
  lemma {:induction false} FoundExactly(env: Env, before: Order, aliases: seq<Value>, d: Data)
    ensures FoundIn(env, before, aliases, d).None? <==> forall a :: a in aliases ==> Get(env, a) != d
    ensures forall i :: 0 <= i < |aliases| && Get(env, aliases[i]) == d && (forall j :: 0 <= j < i ==> Get(env, aliases[j]) != d) ==>
              FoundIn(env, before, aliases, d) == Some(Index(before, aliases[i]))
  {
    if aliases != [] {
      FoundExactly(env, before, aliases[1..], d);
      assert forall a :: a in aliases <==> a == aliases[0] || a in aliases[1..];
      forall i | 0 <= i < |aliases| && Get(env, aliases[i]) == d && forall j :: 0 <= j < i ==> Get(env, aliases[j]) != d
        ensures FoundIn(env, before, aliases, d) == Some(Index(before, aliases[i]))
      {
        if i > 0 {
          assert Get(env, aliases[0]) != d;
          assert aliases[1..][i - 1] == aliases[i] && forall j :: 0 <= j < i - 1 ==> aliases[1..][j] == aliases[j + 1];
        }
      }
    }
  }

  function FoundAlias(ps: Pointers, env: Env, before: Order, v: Value): Option<nat> {
    if v in ps.info then FoundIn(env, before, ps.info[v].aliasSet, Get(env, v)) else None
  }

  function CellOf(w: World, d: Data): BitString {
    if Points(w, d) then w.cells[d.alloc] else []
  }

  function FileOf(sem: Sem, ps: Pointers, ty: Types, env: Env, w: World, before: Order, v: Value): File {
    if v !in ps.info then sem.codec.pointer(ty.Width(v), 1, IntBits(IntOf(Get(env, v)), ty.Width(v)))
    else if ty.OriginOf(v).Derived? then
      sem.codec.alias(SizeOf(ps, env, v), CountOf(ps, env, v), LabelOf(FoundAlias(ps, env, before, v)))
    else sem.codec.pointer(SizeOf(ps, env, v), CountOf(ps, env, v), CellOf(w, Get(env, v)))
  }

  function FilesOf(sem: Sem, ps: Pointers, ty: Types, env: Env, w: World, order: Order): (files: seq<File>)
    ensures |files| == |order|
    decreases |order|
  {
    if order == [] then []
    else FilesOf(sem, ps, ty, env, w, Before(order)) + [FileOf(sem, ps, ty, env, w, Before(order), Latest(order))]
  }

  ghost predicate Reads(codec: Codec, size: nat, count: nat, bits: BitString) {
    codec.readPointer(size, count, codec.pointer(size, count, bits)) == Some(bits)
  }

  /** The record of `v` can be read back: its body survives, its size fits a word, its alias lookup succeeds. */
  ghost predicate Survives(sem: Sem, ps: Pointers, ty: Types, env: Env, w: World, before: Order, v: Value) {
    if v !in ps.info then Reads(sem.codec, ty.Width(v), 1, IntBits(IntOf(Get(env, v)), ty.Width(v)))
    else
      var size, count := SizeOf(ps, env, v), CountOf(ps, env, v);
      if ty.OriginOf(v).Derived? then
        var found := FoundAlias(ps, env, before, v);
        found.Some? && sem.codec.readAlias(sem.codec.alias(size, count, found.value)) == found
      else TotalBits(size, count) == Product(size, count) && Reads(sem.codec, size, count, CellOf(w, Get(env, v)))
  }

  ghost predicate AllSurvive(sem: Sem, ps: Pointers, ty: Types, env: Env, w: World, order: Order)
    decreases |order|
  {
    order != [] ==>
      AllSurvive(sem, ps, ty, env, w, Before(order)) && Survives(sem, ps, ty, env, w, Before(order), Latest(order))
  }

  // ----- saving -----

  lemma {:induction false} RunConcat(sem: Sem, a: seq<Instr>, b: seq<Instr>, env: Env, w: World)
    ensures RunBody(sem, a + b, env, w) == RunBody(sem, b, RunBody(sem, a, env, w).0, RunBody(sem, a, env, w).1)
    decreases |a|
  {
    if a == [] {
      assert a + b == b;
    } else {
      assert (a + b)[1..] == a[1..] + b;
      var (env', w') := RunInstr(sem, a[0], env, w);
      RunConcat(sem, a[1..], b, env', w');
    }
  }

  lemma RunOne(sem: Sem, i: Instr, env: Env, w: World)
    ensures RunBody(sem, [i], env, w) == RunInstr(sem, i, env, w)
  {
    assert [i][1..] == [];
  }

  lemma EvalConcat(env: Env, a: seq<Operand>, b: seq<Operand>)
    ensures EvalAll(env, a + b) == EvalAll(env, a) + EvalAll(env, b)
  {
  }

  /** The candidates of an alias call, evaluated. */
  lemma {:induction false} LookupIsFoundIn(ps: Pointers, env: Env, before: Order, aliases: seq<Value>, d: Data)
    ensures FirstMatch(Candidates(EvalAll(env, CandidateArgs(ps, before, aliases))), d) == FoundIn(env, before, aliases, d)
  {
    if aliases != [] {
      var a := aliases[0];
      var own := SizeArgs(ps, a) + [Const(Index(before, a)), Use(a)];
      var rest := CandidateArgs(ps, before, aliases[1..]);
      LookupIsFoundIn(ps, env, before, aliases[1..], d);
      EvalConcat(env, own, rest);
      var ds := EvalAll(env, own) + EvalAll(env, rest);
      assert ds[2] == Int(Index(before, a)) && ds[3] == Get(env, a);
      assert ds[4..] == EvalAll(env, rest);
      var cs := Candidates(ds);
      assert cs[0] == Candidate(Index(before, a), Get(env, a)) && cs[1..] == Candidates(EvalAll(env, rest));
    }
  }

  function Written(w: World, file: File): World {
    w.(io := w.io.(output := w.io.output + [file]))
  }

  /** Saving one value adds its file and changes nothing else. */
  lemma SaveRun(sem: Sem, ps: Pointers, ty: Types, owner: Owner, env: Env, w: World, before: Order, v: Value)
    requires Good(ps, ty, owner, env, w, v) && Survives(sem, ps, ty, env, w, before, v) && !w.io.failed
    ensures RunInstr(sem, SaveOf(ps, ty, before, v), env, w) == (env, Written(w, FileOf(sem, ps, ty, env, w, before, v)))
  {
    if v in ps.info {
      var sizes := SizeArgs(ps, v) + [Use(v)];
      assert EvalAll(env, sizes) == [Eval(env, ps.info[v].typeSizeInBits), Eval(env, ps.info[v].numElements), Get(env, v)];
      if ty.OriginOf(v).Derived? {
        var candidates := CandidateArgs(ps, before, ps.info[v].aliasSet);
        LookupIsFoundIn(ps, env, before, ps.info[v].aliasSet, Get(env, v));
        EvalConcat(env, sizes, candidates);
        assert (EvalAll(env, sizes) + EvalAll(env, candidates))[3..] == EvalAll(env, candidates);
      } else {
        assert CellOf(w, Get(env, v))[..|CellOf(w, Get(env, v))|] == CellOf(w, Get(env, v));
      }
    } else {
      assert EvalAll(env, [Use(v)]) == [Get(env, v)];
    }
  }

  /** The world with more records written. */
  function WrittenAll(w: World, files: seq<File>): World {
    w.(io := w.io.(output := w.io.output + files))
  }

  lemma OutputIgnored(sem: Sem, ps: Pointers, ty: Types, owner: Owner, env: Env, w: World, files: seq<File>,
                      before: Order, v: Value)
    ensures Good(ps, ty, owner, env, WrittenAll(w, files), v) == Good(ps, ty, owner, env, w, v)
    ensures FileOf(sem, ps, ty, env, WrittenAll(w, files), before, v) == FileOf(sem, ps, ty, env, w, before, v)
    ensures Survives(sem, ps, ty, env, WrittenAll(w, files), before, v) == Survives(sem, ps, ty, env, w, before, v)
  {
  }

  /** All saves: one file for each value, in order. */
  lemma {:induction false} SavesRun(sem: Sem, ps: Pointers, ty: Types, owner: Owner, env: Env, w: World, order: Order)
    requires forall v :: v in order ==> Good(ps, ty, owner, env, w, v)
    requires AllSurvive(sem, ps, ty, env, w, order) && !w.io.failed
    ensures RunBody(sem, SavesOf(ps, ty, order), env, w) == (env, WrittenAll(w, FilesOf(sem, ps, ty, env, w, order)))
    decreases |order|
  {
    if order == [] {
      assert WrittenAll(w, []) == w;
    } else {
      var before, v := Before(order), Latest(order);
      var files := FilesOf(sem, ps, ty, env, w, before);
      assert v in order && forall a :: a in before ==> a in order;
      SavesRun(sem, ps, ty, owner, env, w, before);
      OutputIgnored(sem, ps, ty, owner, env, w, files, before, v);
      SaveRun(sem, ps, ty, owner, env, WrittenAll(w, files), before, v);
      RunConcat(sem, SavesOf(ps, ty, before), [SaveOf(ps, ty, before, v)], env, w);
      RunOne(sem, SaveOf(ps, ty, before, v), env, WrittenAll(w, files));
      WrittenOneMore(w, files, FileOf(sem, ps, ty, env, w, before, v));
    }
  }

  lemma WrittenOneMore(w: World, files: seq<File>, file: File)
    ensures Written(WrittenAll(w, files), file) == WrittenAll(w, files + [file])
  {
    assert w.io.output + files + [file] == w.io.output + (files + [file]);
  }

  // ----- restoring -----

  /** The table has the restored pointer of every pointer record. */
  ghost predicate TableOk(ps: Pointers, l: Label, order: Order, renv: Env, io: IO) {
    && !io.aborted && !io.restarted && |io.table| == |order|
    && forall i :: 0 <= i < |order| && order[i] in ps.info ==> io.table[i] == Get(renv, Restored(order[i], l))
  }

  ghost predicate ValuesSame(rho: Rho, l: Label, order: Order, env: Env, renv: Env) {
    forall v :: v in order ==> Same(rho, Get(env, v), Get(renv, Restored(v, l)))
  }

  /** Only allocations that have their own record are renamed. */
  ghost predicate RenamesOwned(rho: Rho, owner: Owner, order: Order) {
    forall a :: a in rho ==> a in owner && owner[a] in order
  }

  predicate Below(w: World, d: Data) {
    d.Ptr? ==> d.alloc < w.next
  }

  ghost predicate CellsBelow(u: World) {
    forall a :: a in u.cells ==> a < u.next
  }

  /** `order` has been restored: the values in `renv` and the memory of `u` are those saved, renamed by `rho`. */
  ghost predicate Rebuilt(ps: Pointers, l: Label, rho: Rho, owner: Owner, order: Order, env: Env, w: World, renv: Env, u: World) {
    && SameMemory(rho, w, u) && ValuesSame(rho, l, order, env, renv) && RenamesOwned(rho, owner, order)
    && CellsBelow(u) && TableOk(ps, l, order, renv, u.io)
  }

  /** The same behind the end of the restart: nothing has failed, and there is no table any more. */
  ghost predicate RestartOver(l: Label, rho: Rho, order: Order, env: Env, w: World, renv: Env, u: World) {
    SameMemory(rho, w, u) && ValuesSame(rho, l, order, env, renv) && RestartIsOver(u.io)
  }

  lemma OneMoreValue(rho: Rho, more: Rho, l: Label, before: Order, v: Value, env: Env, renv: Env, x: Data)
    requires ValuesSame(rho, l, before, env, renv) && Extends(rho, more) && v !in before
    requires Same(more, Get(env, v), x)
    ensures ValuesSame(more, l, before + [v], env, renv[Restored(v, l) := x])
  {
    forall a | a in before + [v]
      ensures Same(more, Get(env, a), Get(renv[Restored(v, l) := x], Restored(a, l)))
    {
      if a != v { assert Same(rho, Get(env, a), Get(renv, Restored(a, l))); }
    }
  }

  lemma OneMoreEntry(ps: Pointers, l: Label, before: Order, v: Value, renv: Env, x: Data, t: Data, io: IO, io': IO)
    requires TableOk(ps, l, before, renv, io) && v !in before
    requires !io'.aborted && !io'.restarted && io'.table == io.table + [t] && (v in ps.info ==> t == x)
    ensures TableOk(ps, l, before + [v], renv[Restored(v, l) := x], io')
  {
    var order := before + [v];
    forall i | 0 <= i < |order| && order[i] in ps.info
      ensures io'.table[i] == Get(renv[Restored(v, l) := x], Restored(order[i], l))
    {
      if i < |before| { assert order[i] == before[i] && before[i] in before; }
    }
  }

  /** A value that needs no new memory. */
  lemma RebuiltValue(ps: Pointers, l: Label, rho: Rho, owner: Owner, before: Order, v: Value, env: Env, w: World,
                     renv: Env, u: World, x: Data, t: Data)
    requires Rebuilt(ps, l, rho, owner, before, env, w, renv, u) && v !in before
    requires Same(rho, Get(env, v), x) && (v in ps.info ==> t == x)
    ensures Rebuilt(ps, l, rho, owner, before + [v], env, w, renv[Restored(v, l) := x], Remember(u, t))
  {
    OneMoreValue(rho, rho, l, before, v, env, renv, x);
    OneMoreEntry(ps, l, before, v, renv, x, t, u.io, Remember(u, t).io);
  }

  /** The world in which a new allocation has been filled from its record. */
  function Refilled(u: World, bits: BitString): World {
    Remember(u.(cells := u.cells[u.next := bits], next := u.next + 1), Ptr(u.next, 0))
  }

  lemma RefilledMemory(rho: Rho, w: World, u: World, a: nat, bits: BitString)
    requires SameMemory(rho, w, u) && CellsBelow(u) && a !in rho
    requires a in w.cells && a < w.next && w.cells[a] == bits
    ensures SameMemory(rho[a := u.next], w, Refilled(u, bits)) && CellsBelow(Refilled(u, bits))
  {
  }

  lemma RebuiltAllocation(ps: Pointers, l: Label, rho: Rho, owner: Owner, before: Order, v: Value, env: Env, w: World,
                          renv: Env, u: World) returns (more: Rho)
    requires Rebuilt(ps, l, rho, owner, before, env, w, renv, u) && v !in before
    requires Owns(owner, Get(env, v), v) && Points(w, Get(env, v)) && Below(w, Get(env, v))
    ensures Rebuilt(ps, l, more, owner, before + [v], env, w, renv[Restored(v, l) := Ptr(u.next, 0)],
                    Refilled(u, CellOf(w, Get(env, v))))
  {
    var a := Get(env, v).alloc;
    var bits := CellOf(w, Get(env, v));
    more := rho[a := u.next];
    assert a !in rho;
    RefilledMemory(rho, w, u, a, bits);
    OneMoreValue(rho, more, l, before, v, env, renv, Ptr(u.next, 0));
    OneMoreEntry(ps, l, before, v, renv, Ptr(u.next, 0), Ptr(u.next, 0), u.io, Refilled(u, bits).io);
  }

  /** The next file to be read. */
  predicate NextIs(u: World, file: File) {
    NextInput(u.io) == Some(file)
  }

  lemma ScalarLoaded(sem: Sem, dst: Value, width: nat, renv: Env, u: World, i: nat)
    requires NextIs(u, sem.codec.pointer(width, 1, IntBits(i, width))) && Reads(sem.codec, width, 1, IntBits(i, width))
    requires i < Pow2(width)
    ensures RunBody(sem, [Instr(Some(dst), LoadScalar(width), [])], renv, u) == (renv[dst := Int(i)], Remember(u, Int(0)))
  {
    IntBitsRoundTrip(i, width);
    RunOne(sem, Instr(Some(dst), LoadScalar(width), []), renv, u);
  }

  lemma PointerLoaded(sem: Sem, ptr: Value, sizes: seq<Operand>, size: nat, count: nat, bits: BitString, renv: Env, u: World)
    requires |sizes| == 2 && IntOf(Eval(renv, sizes[0])) == size && IntOf(Eval(renv, sizes[1])) == count
    requires NextIs(u, sem.codec.pointer(size, count, bits)) && Reads(sem.codec, size, count, bits)
    requires var d := Get(renv, ptr); Points(u, d) && |u.cells[d.alloc]| == |bits|
    ensures var d := Get(renv, ptr);
            RunInstr(sem, Instr(None, LoadPointer, sizes + [Use(ptr)]), renv, u) ==
            (renv, Remember(u.(cells := u.cells[d.alloc := bits]), d))
  {
    var d := Get(renv, ptr);
    var args := EvalAll(renv, sizes + [Use(ptr)]);
    assert args[0] == Eval(renv, sizes[0]) && args[1] == Eval(renv, sizes[1]) && args[2] == d;
    assert bits + u.cells[d.alloc][|bits|..] == bits;
  }

  lemma AllocatedThenLoaded(sem: Sem, dst: Value, op: Op, opArgs: seq<Operand>, sizes: seq<Operand>, size: nat, count: nat,
                            bits: BitString, renv: Env, u: World)
    requires Exec(sem, op, EvalAll(renv, opArgs), u) == Allocate(sem, |bits|, u)
    requires |sizes| == 2 && dst !in OperandUses(sizes[0]) && dst !in OperandUses(sizes[1])
    requires IntOf(Eval(renv, sizes[0])) == size && IntOf(Eval(renv, sizes[1])) == count
    requires NextIs(u, sem.codec.pointer(size, count, bits)) && Reads(sem.codec, size, count, bits)
    ensures RunBody(sem, [Instr(Some(dst), op, opArgs), Instr(None, LoadPointer, sizes + [Use(dst)])], renv, u) ==
            (renv[dst := Ptr(u.next, 0)], Refilled(u, bits))
  {
    var first, second := Instr(Some(dst), op, opArgs), Instr(None, LoadPointer, sizes + [Use(dst)]);
    var (x, u1) := Allocate(sem, |bits|, u);
    var renv1 := renv[dst := x];
    assert RunInstr(sem, first, renv, u) == (renv1, u1);
    PointerLoaded(sem, dst, sizes, size, count, bits, renv1, u1);
    assert [first, second][1..] == [second];
    RunOne(sem, second, renv1, u1);
    assert u1.cells[u.next := bits] == u.cells[u.next := bits];
  }

  lemma AliasLoaded(sem: Sem, dst: Value, sizes: seq<Operand>, size: nat, count: nat, j: nat, renv: Env, u: World)
    requires NextIs(u, sem.codec.alias(size, count, j)) && sem.codec.readAlias(sem.codec.alias(size, count, j)) == Some(j)
    requires j < |u.io.table|
    ensures RunBody(sem, [Instr(Some(dst), LoadAlias, sizes)], renv, u) ==
            (renv[dst := u.io.table[j]], Remember(u, u.io.table[j]))
  {
    RunOne(sem, Instr(Some(dst), LoadAlias, sizes), renv, u);
  }

  /** Sizes come back as they were. */
  lemma SizeRestored(rho: Rho, l: Label, before: Order, env: Env, renv: Env, o: Operand)
    requires ValuesSame(rho, l, before, env, renv) && (o.Use? ==> o.v in before)
    ensures IntOf(Eval(renv, RestoredAs(l, o))) == IntOf(Eval(env, o))
  {
    if o.Use? { assert Same(rho, Get(env, o.v), Get(renv, Restored(o.v, l))); }
  }

  /** The candidate an alias lookup finds. */
  lemma {:induction false} FoundIsAlias(env: Env, before: Order, aliases: seq<Value>, d: Data) returns (a: Value)
    requires FoundIn(env, before, aliases, d).Some?
    ensures a in aliases && Get(env, a) == d && FoundIn(env, before, aliases, d) == Some(Index(before, a))
  {
    if Get(env, aliases[0]) == d {
      a := aliases[0];
    } else {
      a := FoundIsAlias(env, before, aliases[1..], d);
    }
  }

  /** What has to be known to restore one more record. */
  ghost predicate Ready(sem: Sem, ps: Pointers, ty: Types, owner: Owner, before: Order, v: Value, env: Env, w: World, u: World) {
    && v !in before && Direct(ps, v) <= Members(before)
    && Below(w, Get(env, v)) && Good(ps, ty, owner, env, w, v) && Survives(sem, ps, ty, env, w, before, v)
    && NextIs(u, FileOf(sem, ps, ty, env, w, before, v))
  }

  lemma ScalarRestored(sem: Sem, ps: Pointers, ty: Types, l: Label, rho: Rho, owner: Owner, before: Order, v: Value,
                       env: Env, w: World, renv: Env, u: World)
    requires Ready(sem, ps, ty, owner, before, v, env, w, u) && v !in ps.info
    requires Rebuilt(ps, l, rho, owner, before, env, w, renv, u)
    ensures var (renv', u') := RunBody(sem, RestoreOf(ps, ty, l, v), renv, u);
            Rebuilt(ps, l, rho, owner, before + [v], env, w, renv', u') && u'.io.input == u.io.input
  {
    var i := Get(env, v).i;
    ScalarLoaded(sem, Restored(v, l), ty.Width(v), renv, u, i);
    RebuiltValue(ps, l, rho, owner, before, v, env, w, renv, u, Int(i), Int(0));
  }

  lemma AliasRestored(sem: Sem, ps: Pointers, ty: Types, l: Label, rho: Rho, owner: Owner, before: Order, v: Value,
                      env: Env, w: World, renv: Env, u: World)
    requires Ready(sem, ps, ty, owner, before, v, env, w, u) && v in ps.info && ty.OriginOf(v).Derived?
    requires KnownAliases(ps) && OriginFits(ps, ty, v)
    requires Rebuilt(ps, l, rho, owner, before, env, w, renv, u)
    ensures var (renv', u') := RunBody(sem, RestoreOf(ps, ty, l, v), renv, u);
            Rebuilt(ps, l, rho, owner, before + [v], env, w, renv', u') && u'.io.input == u.io.input
  {
    var a := FoundIsAlias(env, before, ps.info[v].aliasSet, Get(env, v));
    assert a in Direct(ps, v) && a in before;
    var j := Index(before, a);
    IndexAt(before, a);
    AliasLoaded(sem, Restored(v, l), RestoredSizes(ps, l, v), SizeOf(ps, env, v), CountOf(ps, env, v), j, renv, u);
    RebuiltValue(ps, l, rho, owner, before, v, env, w, renv, u, u.io.table[j], u.io.table[j]);
  }

  lemma SizesRestored(ps: Pointers, l: Label, rho: Rho, before: Order, v: Value, env: Env, renv: Env)
    requires v in ps.info && ValuesSame(rho, l, before, env, renv) && Direct(ps, v) <= Members(before) && v !in before
    ensures var sizes := RestoredSizes(ps, l, v);
            && IntOf(Eval(renv, sizes[0])) == SizeOf(ps, env, v) && IntOf(Eval(renv, sizes[1])) == CountOf(ps, env, v)
            && Restored(v, l) !in OperandUses(sizes[0]) && Restored(v, l) !in OperandUses(sizes[1])
  {
    var size, count := ps.info[v].typeSizeInBits, ps.info[v].numElements;
    assert forall a :: a in OperandUses(size) + OperandUses(count) ==> a in Direct(ps, v) && a in before;
    SizeRestored(rho, l, before, env, renv, size);
    SizeRestored(rho, l, before, env, renv, count);
  }

  lemma AllocationRestored(sem: Sem, ps: Pointers, ty: Types, l: Label, rho: Rho, owner: Owner, before: Order, v: Value,
                           env: Env, w: World, renv: Env, u: World) returns (more: Rho)
    requires Ready(sem, ps, ty, owner, before, v, env, w, u) && v in ps.info && !ty.OriginOf(v).Derived?
    requires OriginFits(ps, ty, v)
    requires Rebuilt(ps, l, rho, owner, before, env, w, renv, u)
    ensures var (renv', u') := RunBody(sem, RestoreOf(ps, ty, l, v), renv, u);
            Rebuilt(ps, l, more, owner, before + [v], env, w, renv', u') && u'.io.input == u.io.input
  {
    var sizes := RestoredSizes(ps, l, v);
    var bits := CellOf(w, Get(env, v));
    SizesRestored(ps, l, rho, before, v, env, renv);
    more := RebuiltAllocation(ps, l, rho, owner, before, v, env, w, renv, u);
    match ty.OriginOf(v)
    case Stack(elemBits, count) =>
      assert |bits| == Product(elemBits, count);
      AllocatedThenLoaded(sem, Restored(v, l), NewStack(elemBits, count), [], sizes, SizeOf(ps, env, v), CountOf(ps, env, v),
                          bits, renv, u);
    case Heap =>
      assert EvalAll(renv, [sizes[1]]) == [Eval(renv, sizes[1])];
      AllocatedThenLoaded(sem, Restored(v, l), NewHeap, [sizes[1]], sizes, SizeOf(ps, env, v), CountOf(ps, env, v),
                          bits, renv, u);
  }

  /** Each record, read in its turn, restores its value. */
  lemma RestoreRun(sem: Sem, ps: Pointers, ty: Types, l: Label, rho: Rho, owner: Owner, before: Order, v: Value,
                   env: Env, w: World, renv: Env, u: World) returns (more: Rho)
    requires Ready(sem, ps, ty, owner, before, v, env, w, u) && KnownAliases(ps) && OriginsFit(ps, ty)
    requires Rebuilt(ps, l, rho, owner, before, env, w, renv, u)
    ensures var (renv', u') := RunBody(sem, RestoreOf(ps, ty, l, v), renv, u);
            Rebuilt(ps, l, more, owner, before + [v], env, w, renv', u') && u'.io.input == u.io.input
  {
    more := rho;
    if v !in ps.info {
      ScalarRestored(sem, ps, ty, l, rho, owner, before, v, env, w, renv, u);
    } else if ty.OriginOf(v).Derived? {
      AliasRestored(sem, ps, ty, l, rho, owner, before, v, env, w, renv, u);
    } else {
      more := AllocationRestored(sem, ps, ty, l, rho, owner, before, v, env, w, renv, u);
    }
  }

  /** A process that has read nothing yet, with the files of a checkpoint before it. */
  ghost predicate FreshProcess(u: World, files: seq<File>) {
    CellsBelow(u) && !u.io.aborted && !u.io.restarted && u.io.table == [] && u.io.input == files
  }

  /**
    Restoring in a fresh process what was saved rebuilds the values and the memory: scalars are equal, allocations hold
    the same bits, and two pointers are equal exactly when the saved ones were.
   */
  lemma {:induction false} RestoresRun(sem: Sem, ps: Pointers, ty: Types, l: Label, owner: Owner, order: Order, env: Env, w: World,
                                       renv: Env, u: World, files: seq<File>) returns (rho: Rho)
    requires KnownAliases(ps) && OriginsFit(ps, ty) && WellOrdered(ps, order)
    requires forall v :: v in order ==> Good(ps, ty, owner, env, w, v) && Below(w, Get(env, v))
    requires AllSurvive(sem, ps, ty, env, w, order)
    requires FreshProcess(u, files) && FilesOf(sem, ps, ty, env, w, order) <= files
    ensures var (renv', u') := RunBody(sem, RestoresOf(ps, ty, l, order), renv, u);
            Rebuilt(ps, l, rho, owner, order, env, w, renv', u') && u'.io.input == files
    decreases |order|
  {
    if order == [] {
      rho := map[];
    } else {
      var before, v := Before(order), Latest(order);
      assert order == before + [v];
      assert v in order && forall a :: a in before ==> a in order;
      var first := RestoresRun(sem, ps, ty, l, owner, before, env, w, renv, u, files);
      var (renv1, u1) := RunBody(sem, RestoresOf(ps, ty, l, before), renv, u);
      assert files[|before|] == FileOf(sem, ps, ty, env, w, before, v);
      rho := RestoreRun(sem, ps, ty, l, first, owner, before, v, env, w, renv1, u1);
      RunConcat(sem, RestoresOf(ps, ty, l, before), RestoreOf(ps, ty, l, v), renv, u);
    }
  }

  /** Under a renaming two pointers are equal exactly when the renamed ones are. */
  lemma SamePointers(rho: Rho, d: Data, e: Data, d': Data, e': Data)
    requires Injective(rho) && Same(rho, d, d') && Same(rho, e, e')
    ensures d == e <==> d' == e'
  {
  }
}
