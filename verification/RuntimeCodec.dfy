/**
  The record files of the runtime as the function's operations see them: when a record
  survives, and that a directory of surviving records validates.
 */
module RuntimeCodec {
  import opened Streams
  import opened Records
  import opened Bits
  import opened RestartSide
  import opened Directory
  import opened IR
  import opened Pointers
  import opened Emission
  import opened Typing
  import opened SaveRestore

  /** The bits of a body that was read; the reader takes as many bytes as it needs. */
  function BitsRead(body: Option<seq<Byte>>, total: nat): Option<BitString> {
    if body.None? || 8 * |body.value| < total then None else Some(Unpack(body.value, total))
  }

  /** What `checkpoint.cpp` writes and `restart.cpp` reads. */
  function RuntimeRecords(lib: Library): Codec {
    Codec(
      (size: nat, count: nat, bits: BitString) => PointerFile(size, count, Pack(bits)),
      (size: nat, count: nat, file: File) => BitsRead(ReadPointer(lib, size, count, file), TotalBits(size, count)),
      (size: nat, count: nat, record: nat) => AliasFile(size, count, record),
      AliasReader(lib))
  }

  /**
    The record of a value: a scalar is written with its width, an allocation with its element size and count and all its
    bits, any other pointer with its sizes and the number of the first alias that points where it does.
   */
  lemma FileIs(lib: Library, sem: Sem, ps: Pointers, ty: Types, env: Env, w: World, before: Order, v: Value, i: nat)
    requires sem.codec == RuntimeRecords(lib)
    ensures v !in ps.info ==>
              FileOf(sem, ps, ty, env, w, before, v) == PointerFile(ty.Width(v), 1, Pack(IntBits(IntOf(Get(env, v)), ty.Width(v))))
    ensures v in ps.info ==>
              var size, count := IntOf(Eval(env, ps.info[v].typeSizeInBits)), IntOf(Eval(env, ps.info[v].numElements));
              var aliases := ps.info[v].aliasSet;
              && (!ty.OriginOf(v).Derived? && Points(w, Get(env, v)) ==>
                    FileOf(sem, ps, ty, env, w, before, v) == PointerFile(size, count, Pack(w.cells[Get(env, v).alloc])))
              && (ty.OriginOf(v).Derived? && i < |aliases| && Get(env, aliases[i]) == Get(env, v)
                  && (forall j :: 0 <= j < i ==> Get(env, aliases[j]) != Get(env, v)) ==>
                    FileOf(sem, ps, ty, env, w, before, v) == AliasFile(size, count, Index(before, aliases[i])))
  {
    if v in ps.info { FoundExactly(env, before, ps.info[v].aliasSet, Get(env, v)); }
  }

  lemma PointerReads(lib: Library, size: nat, count: nat, bits: BitString)
    requires size < WORD && count < WORD && |bits| == TotalBits(size, count) && Readable(lib, Pack(bits))
    ensures Reads(RuntimeRecords(lib), size, count, bits)
  {
    PointerRoundTrip(lib, size, count, Pack(bits));
    UnpackPack(bits);
  }

  /** What the program has to see to: sizes fit a word, bodies are readable, alias lookups succeed. */
  ghost predicate Savable(lib: Library, ps: Pointers, ty: Types, env: Env, w: World, before: Order, v: Value) {
    if v !in ps.info then ty.Width(v) < WORD && Readable(lib, Pack(IntBits(IntOf(Get(env, v)), ty.Width(v))))
    else
      var size, count := SizeOf(ps, env, v), CountOf(ps, env, v);
      && size < WORD && count < WORD
      && if ty.OriginOf(v).Derived? then FoundAlias(ps, env, before, v).Some?
         else Product(size, count) < WORD && Readable(lib, Pack(CellOf(w, Get(env, v))))
  }

  ghost predicate AllSavable(lib: Library, ps: Pointers, ty: Types, env: Env, w: World, order: Order)
    decreases |order|
  {
    order != [] ==>
      AllSavable(lib, ps, ty, env, w, Before(order)) && Savable(lib, ps, ty, env, w, Before(order), Latest(order))
  }

  function RecordFor(ps: Pointers, ty: Types, env: Env, w: World, before: Order, v: Value): Record {
    if v !in ps.info then PointerRecord(ty.Width(v), 1, Pack(IntBits(IntOf(Get(env, v)), ty.Width(v))))
    else if ty.OriginOf(v).Derived? then
      AliasRecord(SizeOf(ps, env, v), CountOf(ps, env, v), LabelOf(FoundAlias(ps, env, before, v)))
    else PointerRecord(SizeOf(ps, env, v), CountOf(ps, env, v), Pack(CellOf(w, Get(env, v))))
  }

  function RecordsFor(ps: Pointers, ty: Types, env: Env, w: World, order: Order): (rs: seq<Record>)
    ensures |rs| == |order|
    decreases |order|
  {
    if order == [] then []
    else RecordsFor(ps, ty, env, w, Before(order)) + [RecordFor(ps, ty, env, w, Before(order), Latest(order))]
  }

  lemma {:induction false} FoundBelow(env: Env, before: Order, aliases: seq<Value>, d: Data)
    requires FoundIn(env, before, aliases, d).Some?
    ensures FoundIn(env, before, aliases, d).value <= |before|
  {
    if Get(env, aliases[0]) == d {
      if aliases[0] in before { IndexAt(before, aliases[0]); }
    } else {
      FoundBelow(env, before, aliases[1..], d);
    }
  }

  lemma OneIsItself(n: nat)
    requires n < WORD
    ensures TotalBits(n, 1) == n
  {
    assert Product(n, 1) == Product(n, 0) + n;
  }

  /** A savable record survives, is a valid record of the format, and passes the validator. */
  lemma SavableSurvives(lib: Library, sem: Sem, ps: Pointers, ty: Types, owner: Owner, env: Env, w: World, before: Order, v: Value)
    requires sem.codec == RuntimeRecords(lib) && Good(ps, ty, owner, env, w, v) && |before| < WORD
    requires Savable(lib, ps, ty, env, w, before, v)
    ensures Survives(sem, ps, ty, env, w, before, v)
    ensures var r := RecordFor(ps, ty, env, w, before, v);
            r.Valid() && Acceptable(lib, r) && r.File() == FileOf(sem, ps, ty, env, w, before, v)
  {
    var size, count := SizeOf(ps, env, v), CountOf(ps, env, v);
    if v !in ps.info {
      OneIsItself(ty.Width(v));
      PointerReads(lib, ty.Width(v), 1, IntBits(IntOf(Get(env, v)), ty.Width(v)));
    } else if ty.OriginOf(v).Derived? {
      FoundBelow(env, before, ps.info[v].aliasSet, Get(env, v));
      AliasRoundTrip(lib, size, count, FoundAlias(ps, env, before, v).value);
    } else {
      PointerReads(lib, size, count, CellOf(w, Get(env, v)));
    }
  }

  lemma {:induction false} AllSavableSurvive(lib: Library, sem: Sem, ps: Pointers, ty: Types, owner: Owner, env: Env, w: World,
                                             order: Order)
    requires sem.codec == RuntimeRecords(lib) && |order| < WORD
    requires forall v :: v in order ==> Good(ps, ty, owner, env, w, v)
    requires AllSavable(lib, ps, ty, env, w, order)
    ensures AllSurvive(sem, ps, ty, env, w, order)
    ensures forall r :: r in RecordsFor(ps, ty, env, w, order) ==> r.Valid() && Acceptable(lib, r)
    ensures Files([], RecordsFor(ps, ty, env, w, order)).bodies == FilesOf(sem, ps, ty, env, w, order)
    decreases |order|
  {
    if order != [] {
      assert Latest(order) in order && forall v :: v in Before(order) ==> v in order;
      AllSavableSurvive(lib, sem, ps, ty, owner, env, w, Before(order));
      SavableSurvives(lib, sem, ps, ty, owner, env, w, Before(order), Latest(order));
      FilesAppend(RecordsFor(ps, ty, env, w, Before(order)), RecordFor(ps, ty, env, w, Before(order), Latest(order)));
    }
  }

  lemma FilesAppend(rs: seq<Record>, r: Record)
    ensures Files([], rs + [r]).bodies == Files([], rs).bodies + [r.File()]
  {
  }

  /** The directory of a checkpoint whose records are all savable validates, with its label and its record count. */
  lemma SavedDirectoryValid(lib: Library, sem: Sem, ps: Pointers, ty: Types, owner: Owner, env: Env, w: World, order: Order, k: nat)
    requires sem.codec == RuntimeRecords(lib) && |order| < WORD && k < WORD / 2
    requires forall v :: v in order ==> Good(ps, ty, owner, env, w, v)
    requires AllSavable(lib, ps, ty, env, w, order)
    ensures Accepted(lib, Dir(Some(InfoFile(k, |order|)), FilesOf(sem, ps, ty, env, w, order))) == Some((k, |order|))
  {
    var rs := RecordsFor(ps, ty, env, w, order);
    AllSavableSurvive(lib, sem, ps, ty, owner, env, w, order);
    WrittenAccepted(lib, k, rs);
    assert Directory.Written(k, |rs|, rs).bodies == Files([], rs).bodies;
  }
}
