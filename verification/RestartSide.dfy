/**
  The restart side of the runtime: record files read one after the other, memory written back
  in place, and the table of the pointers they were read into.
 */
module RestartSide {
  import opened Streams
  import opened Records
  import opened Bits

  /** The first `n` entries of a table. */
  function Entries<P>(table: map<nat, P>, n: nat): (entries: seq<P>)
    requires forall i: nat :: i < n ==> i in table
    ensures |entries| == n && forall i :: 0 <= i < n ==> entries[i] == table[i]
  {
    seq(n, i requires 0 <= i < n => table[i])
  }

  lemma OneMoreEntry<P>(table: map<nat, P>, n: nat, p: P)
    requires forall i: nat :: i < n ==> i in table
    ensures Entries(table[n := p], n + 1) == Entries(table, n) + [p]
  {
  }

  /** The body of a pointer record read into memory; where the reader exits, `ok` is false. */
  method RestoreRecord(lib: Library, sizeBits: nat, numElements: nat, file: File, data: array<Byte>) returns (ok: bool)
    requires TotalBits(sizeBits, numElements) + 8 <= WORD && BytesFor(TotalBits(sizeBits, numElements)) <= data.Length
    modifies data
    ensures Restores(lib, sizeBits, numElements, Some(file), old(data[..]), ok, data[..])
  {
    var h := ReadHeader(lib, file);
    if h.Bad? || h.alias != 0 {
      return false;
    }
    HeaderLeavesGood(lib, file);
    var s;
    ok, s := RestoreBits(h.body, TotalBits(sizeBits, numElements), data);
    if ok {
      ok := !Ws(lib, s).fail;
    }
  }

  /** The restart fields of `ACRIiLState`; `P` are the addresses it is given. */
  class ACRIiLRestartState<P(==)> {
    var restartBaseDirectory: seq<File>
    var restartArgumentIndexCounter: int
    var restartPointerAliasAddresses: map<nat, P>

    /** The entries of the table are those of the files read so far. */
    ghost predicate Valid()
      reads this
    {
      && restartArgumentIndexCounter >= -1
      && forall i: nat :: i in restartPointerAliasAddresses <==> i <= restartArgumentIndexCounter
    }

    ghost function Table(): seq<P>
      reads this
      requires Valid()
    {
      Entries(restartPointerAliasAddresses, restartArgumentIndexCounter + 1)
    }

    /** A file has been opened and its entry is still missing; `before` is the table so far. */
    ghost predicate Opened(before: seq<P>)
      reads this
    {
      && restartArgumentIndexCounter >= 0
      && (forall i: nat :: i in restartPointerAliasAddresses <==> i < restartArgumentIndexCounter)
      && Entries(restartPointerAliasAddresses, restartArgumentIndexCounter) == before
    }

    /** `restartSetup` */
    constructor (dir: seq<File>)
      ensures Valid() && Table() == [] && restartBaseDirectory == dir
    {
      restartBaseDirectory, restartArgumentIndexCounter, restartPointerAliasAddresses := dir, -1, map[];
    }

    /** `getNextRestartArgumentFileName`, and opening the file. */
    method OpenNextRestartArgumentFile() returns (file: Option<File>)
      requires Valid()
      modifies this`restartArgumentIndexCounter
      ensures file == NextFile(restartBaseDirectory, old(Table())) && Opened(old(Table()))
    {
      restartArgumentIndexCounter := restartArgumentIndexCounter + 1;
      file := if restartArgumentIndexCounter < |restartBaseDirectory| then Some(restartBaseDirectory[restartArgumentIndexCounter])
              else None;
    }

    method SetAlias(ptr: P, ghost before: seq<P>)
      requires Opened(before)
      modifies this`restartPointerAliasAddresses
      ensures Valid() && Table() == before + [ptr]
    {
      OneMoreEntry(restartPointerAliasAddresses, restartArgumentIndexCounter, ptr);
      restartPointerAliasAddresses := restartPointerAliasAddresses[restartArgumentIndexCounter := ptr];
    }

    method GetAlias(aliasesTo: nat, ghost before: seq<P>) returns (ptr: Option<P>)
      requires Opened(before)
      ensures ptr == if aliasesTo < |before| then Some(before[aliasesTo]) else None
    {
      ptr := if aliasesTo in restartPointerAliasAddresses then Some(restartPointerAliasAddresses[aliasesTo]) else None;
    }

    /** `__acriilRestartReadPointerFromCheckpoint`; where it exits, `ok` is false. */
    method ReadPointerFromCheckpoint(lib: Library, sizeBits: nat, numElements: nat, ptr: P, data: array<Byte>) returns (ok: bool)
      requires Valid()
      requires TotalBits(sizeBits, numElements) + 8 <= WORD && BytesFor(TotalBits(sizeBits, numElements)) <= data.Length
      modifies this, data
      ensures restartBaseDirectory == old(restartBaseDirectory)
      ensures ok ==> Valid() && Table() == old(Table()) + [ptr]
      ensures Restores(lib, sizeBits, numElements, NextFile(old(restartBaseDirectory), old(Table())), old(data[..]), ok, data[..])
    {
      ghost var before := Table();
      var file := OpenNextRestartArgumentFile();
      ok := file.Some?;
      if ok {
        ok := RestoreRecord(lib, sizeBits, numElements, file.value, data);
      }
      if ok {
        SetAlias(ptr, before);
      }
    }

    /** `__acriilRestartReadAliasFromCheckpoint`; a number outside the table, undefined there, is an exit here. */
    method ReadAliasFromCheckpoint(lib: Library) returns (out: Option<P>)
      requires Valid()
      modifies this
      ensures restartBaseDirectory == old(restartBaseDirectory)
      ensures out == Aliased(AliasReader(lib), NextFile(old(restartBaseDirectory), old(Table())), old(Table()))
      ensures out.Some? ==> Valid() && Table() == old(Table()) + [out.value]
    {
      ghost var before := Table();
      out := None;
      var file := OpenNextRestartArgumentFile();
      if file.Some? {
        var aliasesTo := ReadAlias(lib, file.value);
        if aliasesTo.Some? {
          out := GetAlias(aliasesTo.value, before);
        }
      }
      if out.Some? {
        SetAlias(out.value, before);
      }
    }
  }

  /** The file behind those read so far, when there is one. */
  function NextFile<P>(dir: seq<File>, table: seq<P>): Option<File> {
    if |table| < |dir| then Some(dir[|table|]) else None
  }

  function AliasReader(lib: Library): File -> Option<nat> {
    (file: File) => ReadAlias(lib, file)
  }

  /** The pointer an alias record stands for. */
  function Aliased<P>(readAlias: File -> Option<nat>, file: Option<File>, table: seq<P>): Option<P> {
    if file.None? then None
    else
      var target := readAlias(file.value);
      if target.None? || target.value >= |table| then None else Some(table[target.value])
  }

  /** The outcome of reading a pointer record into memory. */
  ghost predicate Restores(lib: Library, sizeBits: nat, numElements: nat, file: Option<File>, before: seq<Byte>, ok: bool, after: seq<Byte>) {
    var body := if file.None? then None else ReadPointer(lib, sizeBits, numElements, file.value);
    ok == body.Some?
    && (ok ==> |body.value| == BytesFor(TotalBits(sizeBits, numElements))
               && Overwritten(before, body.value, TotalBits(sizeBits, numElements), after))
  }
}
