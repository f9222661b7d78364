/**
  The record files of a checkpoint directory: what `checkpoint.cpp` writes, and how
  `restart.cpp` checks and reads it.
 */
module Records {
  import opened Streams

  datatype Option<+T> = None | Some(value: T)

  type File = seq<Byte>

  /** The text "alias". */
  const ALIAS: seq<Byte> := [97, 108, 105, 97, 115]
  const SPACE: Byte := 32

  // ----- writing -----

  /** Multiplication by repeated addition, which keeps products out of the proofs that do not need them. */
  function Product(a: nat, b: nat): nat {
    if b == 0 then 0 else Product(a, b - 1) + a
  }

  lemma {:induction false} ProductIsTimes(a: nat, b: nat)
    ensures Product(a, b) == a * b
  {
    if b > 0 { ProductIsTimes(a, b - 1); }
  }

  /** The product of two 64-bit sizes, as the runtime computes it. */
  function TotalBits(sizeBits: nat, numElements: nat): nat {
    Product(sizeBits, numElements) % WORD
  }

  /** As few bytes as hold the bits. */
  function BytesFor(bits: nat): (n: nat)
    ensures bits <= 8 * n < bits + 8
  {
    (bits + 7) / 8
  }

  function Preamble(alias: nat): seq<Byte> {
    ALIAS + [SPACE] + Decimal(alias) + [NEWLINE]
  }

  function Sizes(sizeBits: nat, numElements: nat): seq<Byte> {
    Decimal(sizeBits) + [NEWLINE] + (Decimal(numElements) + [NEWLINE, NEWLINE])
  }

  function Header(alias: nat, sizeBits: nat, numElements: nat): seq<Byte> {
    Preamble(alias) + Sizes(sizeBits, numElements)
  }

  function PointerFile(sizeBits: nat, numElements: nat, body: seq<Byte>): File {
    Header(0, sizeBits, numElements) + (body + [NEWLINE])
  }

  function AliasFile(sizeBits: nat, numElements: nat, record: nat): File {
    Header(1, sizeBits, numElements) + (Decimal(record) + [NEWLINE])
  }

  function InfoFile(labelNumber: int, numVariables: nat): File {
    SignedDecimal(labelNumber) + [NEWLINE] + (Decimal(numVariables) + [NEWLINE])
  }

  /** One candidate of an alias record: where it starts and the record it was saved in. */
  datatype Candidate<!P> = Candidate(record: nat, start: P)

  /** The label of the first candidate that starts where the pointer points. */
  function FirstMatch<P(==)>(candidates: seq<Candidate<P>>, pointer: P): (found: Option<nat>)
  {
    if candidates == [] then None
    else if candidates[0].start == pointer then Some(candidates[0].record)
    else FirstMatch(candidates[1..], pointer)
  }

  /** Candidate number `i` matches, and none before it. */
  predicate FirstAt<P(==)>(candidates: seq<Candidate<P>>, pointer: P, i: nat) {
    && i < |candidates| && candidates[i].start == pointer
    && forall j :: 0 <= j < i ==> candidates[j].start != pointer
  }

  lemma {:induction false} FirstMatchIsFirst<P>(candidates: seq<Candidate<P>>, pointer: P)
    ensures FirstMatch(candidates, pointer).None? <==> forall j :: 0 <= j < |candidates| ==> candidates[j].start != pointer
    ensures forall i: nat :: FirstAt(candidates, pointer, i) ==> FirstMatch(candidates, pointer) == Some(candidates[i].record)
  {
    if candidates != [] {
      var rest := candidates[1..];
      FirstMatchIsFirst(rest, pointer);
      assert forall j :: 0 < j < |candidates| ==> candidates[j] == rest[j - 1];
      forall i: nat | FirstAt(candidates, pointer, i) ensures FirstMatch(candidates, pointer) == Some(candidates[i].record) {
        if i > 0 { assert FirstAt(rest, pointer, i - 1); }
      }
      if forall j :: 0 <= j < |candidates| ==> candidates[j].start != pointer {
        assert candidates[0].start != pointer;
        assert forall j :: 0 <= j < |rest| ==> rest[j].start == candidates[j + 1].start;
      }
    }
  }

  /** A failed lookup is still written, with label 0. */
  function LabelOf(found: Option<nat>): nat {
    if found.Some? then found.value else 0
  }

  /** The lines every record starts with. */
  method WriteHeader(alias: nat, elementSizeBits: nat, numElements: nat) returns (file: File)
    ensures file == Header(alias, elementSizeBits, numElements)
  {
    file := ALIAS + [SPACE] + Decimal(alias) + [NEWLINE];
    file := file + Decimal(elementSizeBits) + [NEWLINE];
    file := file + Decimal(numElements) + [NEWLINE];
    file := file + [NEWLINE];
  }

  /**
    The body of `__acriilCheckpointPointer` once the attempt is known to be live.  The loop
    counter is a 64-bit word stepping by 8, hence the bound on the number of bits.
   */
  method WritePointer(elementSizeBits: nat, numElements: nat, data: array<Byte>) returns (file: File)
    requires TotalBits(elementSizeBits, numElements) + 8 <= WORD
    requires BytesFor(TotalBits(elementSizeBits, numElements)) <= data.Length
    ensures file == PointerFile(elementSizeBits, numElements, data[..BytesFor(TotalBits(elementSizeBits, numElements))])
  {
    file := WriteHeader(0, elementSizeBits, numElements);
    ProductIsTimes(elementSizeBits, numElements);
    var totalBits := elementSizeBits * numElements % WORD;
    var i := 0;
    while i < totalBits
      invariant i % 8 == 0 && i <= 8 * BytesFor(totalBits)
      invariant file == Header(0, elementSizeBits, numElements) + data[..i / 8]
    {
      OneMoreByte(data[..], i);
      file := file + [data[i / 8]];
      i := i + 8;
    }
    assert i / 8 == BytesFor(totalBits);
    file := file + [NEWLINE];
  }

  lemma OneMoreByte(bytes: seq<Byte>, i: nat)
    requires i % 8 == 0 && i / 8 < |bytes|
    ensures bytes[..i / 8] + [bytes[i / 8]] == bytes[..(i + 8) / 8]
  {
  }

  /** The body of `__acriilCheckpointAlias` once the attempt is known to be live. */
  method WriteAlias<P(==)>(candidates: seq<Candidate<P>>, elementSizeBits: nat, numElements: nat, currentPointer: P)
    returns (foundAlias: bool, file: File)
    ensures var found := FirstMatch(candidates, currentPointer);
            foundAlias == found.Some? && file == AliasFile(elementSizeBits, numElements, LabelOf(found))
  {
    var referenceLabel := 0;
    foundAlias := false;
    var i := 0;
    while i < |candidates| && !foundAlias
      invariant i <= |candidates|
      invariant !foundAlias ==> referenceLabel == 0
                                && FirstMatch(candidates, currentPointer) == FirstMatch(candidates[i..], currentPointer)
      invariant foundAlias ==> FirstMatch(candidates, currentPointer) == Some(referenceLabel)
    {
      if candidates[i].start == currentPointer {
        foundAlias := true;
        referenceLabel := candidates[i].record;
      }
      i := i + 1;
    }
    file := WriteHeader(1, elementSizeBits, numElements);
    file := file + (Decimal(referenceLabel) + [NEWLINE]);
  }

  lemma OneDigit(d: nat)
    requires d < 10
    ensures Decimal(d) == [Digit(d)] && Digit(d) as int == 48 + d
  {
  }

  lemma TwoDigits(d: nat, e: nat)
    requires 0 < d < 10 && e < 10
    ensures Decimal(10 * d + e) == [Digit(d), Digit(e)]
  {
    assert (10 * d + e) / 10 == d && (10 * d + e) % 10 == e;
    OneDigit(d);
  }

  /** The bytes of a pointer record, of an alias record and of info files. */
  lemma PointerFileText()
    ensures PointerFile(8, 1, [65]) == [97, 108, 105, 97, 115, 32, 48, 10, 56, 10, 49, 10, 10, 65, 10]
  {
    OneDigit(0);
    OneDigit(8);
    OneDigit(1);
  }

  lemma AliasFileText()
    ensures AliasFile(64, 3, 20) == [97, 108, 105, 97, 115, 32, 49, 10, 54, 52, 10, 51, 10, 10, 50, 48, 10]
  {
    OneDigit(1);
    TwoDigits(6, 4);
    OneDigit(3);
    TwoDigits(2, 0);
  }

  lemma InfoFileText()
    ensures InfoFile(7, 12) == [55, 10, 49, 50, 10] && InfoFile(-7, 0) == [45, 55, 10, 48, 10]
  {
    OneDigit(7);
    TwoDigits(1, 2);
    OneDigit(0);
  }

  // ----- reading -----

  datatype ParsedHeader = Bad | Parsed(alias: nat, sizeBits: nat, numElements: nat, body: Stream)

  /** "alias <n>" and the white space behind it; `None` when the stream is left failed or the word is another one. */
  function ReadPreamble(lib: Library, s: Stream): Option<(nat, Stream)> {
    var (word, s1) := ReadWord(s);
    var (alias, s2) := ReadUnsigned(s1);
    var s3 := Ws(lib, s2);
    if s3.fail || word != ALIAS then None else Some((alias, s3))
  }

  function ReadField(lib: Library, s: Stream): Option<(nat, Stream)> {
    var (n, s1) := ReadUnsigned(s);
    var s2 := Ws(lib, s1);
    if s2.fail then None else Some((n, s2))
  }

  /** The element count, then the separator line. */
  function ReadCount(lib: Library, s: Stream): Option<(nat, Stream)> {
    var count := ReadField(lib, s);
    if count.None? then None
    else
      var s1 := Ws(lib, count.value.1);
      if s1.fail then None else Some((count.value.0, s1))
  }

  /** The two sizes and the separator. */
  function ReadSizes(lib: Library, s: Stream): Option<(nat, nat, Stream)> {
    var size := ReadField(lib, s);
    if size.None? then None
    else
      var count := ReadCount(lib, size.value.1);
      if count.None? then None else Some((size.value.0, count.value.0, count.value.1))
  }

  function ReadHeader(lib: Library, file: File): ParsedHeader {
    HeaderFrom(lib, ReadPreamble(lib, Open(file)))
  }

  function HeaderFrom(lib: Library, alias: Option<(nat, Stream)>): ParsedHeader {
    if alias.None? then Bad
    else
      var sizes := ReadSizes(lib, alias.value.1);
      if sizes.None? then Bad
      else Parsed(alias.value.0, sizes.value.0, sizes.value.1, sizes.value.2)
  }

  /** The body bytes and the white space behind them. */
  function ReadBody(lib: Library, s: Stream, count: nat): Option<(seq<Byte>, Stream)> {
    var (bytes, s1) := ReadBytes(s, count);
    var s2 := Ws(lib, s1);
    if s1.fail || s2.fail then None else Some((bytes, s2))
  }

  /** The validator's verdict on one record file. */
  predicate RecordValid(lib: Library, file: File) {
    var h := ReadHeader(lib, file);
    h.Parsed? &&
    if h.alias != 0 then
      var target := ReadField(lib, h.body);
      target.Some? && target.value.1.eof
    else
      var body := ReadBody(lib, h.body, BytesFor(TotalBits(h.sizeBits, h.numElements)));
      body.Some? && body.value.1.eof
  }

  /** The bytes `__acriilRestartReadPointerFromCheckpoint` takes from a file; `None` where it exits. */
  function ReadPointer(lib: Library, sizeBits: nat, numElements: nat, file: File): Option<seq<Byte>> {
    var h := ReadHeader(lib, file);
    if h.Bad? || h.alias != 0 then None
    else
      var body := ReadBody(lib, h.body, BytesFor(TotalBits(sizeBits, numElements)));
      if body.None? then None else Some(body.value.0)
  }

  /** The record number `__acriilRestartReadAliasFromCheckpoint` takes from a file; `None` where it exits. */
  function ReadAlias(lib: Library, file: File): Option<nat> {
    var h := ReadHeader(lib, file);
    if h.Bad? || h.alias != 1 then None
    else
      var target := ReadField(lib, h.body);
      if target.None? then None else Some(target.value.0)
  }

  /** Label and record count of the info file; `None` when either cannot be read. */
  function ReadInfo(lib: Library, file: File): Option<(int, nat)> {
    InfoFrom(lib, ReadSigned(Open(file)))
  }

  function InfoFrom(lib: Library, labelNumber: (int, Stream)): Option<(int, nat)> {
    var s := Ws(lib, labelNumber.1);
    if s.fail then None
    else
      var count := ReadField(lib, s);
      if count.None? then None else Some((labelNumber.0, count.value.0))
  }

  lemma HeaderLeavesGood(lib: Library, file: File)
    ensures var h := ReadHeader(lib, file); h.Parsed? ==> !h.body.fail
  {
    var preamble := ReadPreamble(lib, Open(file));
    if preamble.Some? {
      SizesLeaveGood(lib, preamble.value.1);
    }
  }

  lemma SizesLeaveGood(lib: Library, s: Stream)
    ensures ReadSizes(lib, s).Some? ==> !ReadSizes(lib, s).value.2.fail
  {
    var size := ReadField(lib, s);
    if size.Some? {
      assert ReadCount(lib, size.value.1).Some? ==> !ReadCount(lib, size.value.1).value.1.fail;
    }
  }

  // ----- what the reader makes of what was written -----

  /** The outcome of skipping white space in front of `tail`. */
  function Skipped(tail: seq<Byte>): Stream {
    var r := SkipSpace(tail);
    Stream(r, r == [], false)
  }

  lemma WsOf(lib: Library, spaces: seq<Byte>, tail: seq<Byte>)
    requires forall i :: 0 <= i < |spaces| ==> IsSpace(spaces[i])
    ensures Ws(lib, Open(spaces + tail)) == Skipped(tail)
  {
    SkipSpaceRun(spaces, tail);
  }

  lemma SkippedPlain(tail: seq<Byte>)
    requires tail != [] && !IsSpace(tail[0])
    ensures Skipped(tail) == Open(tail)
  {
  }

  lemma {:induction false} WordOf(word: seq<Byte>, tail: seq<Byte>)
    requires forall i :: 0 <= i < |word| ==> !IsSpace(word[i])
    requires tail != [] ==> IsSpace(tail[0])
    ensures WordLength(word + tail) == |word|
    ensures (word + tail)[..|word|] == word && (word + tail)[|word|..] == tail
  {
    if word != [] {
      assert (word + tail)[1..] == word[1..] + tail;
      WordOf(word[1..], tail);
    }
  }

  /** A formatted read does not see leading white space. */
  lemma ReadAfterSpace(s: Stream, rest: seq<Byte>)
    requires s.Good() && SkipSpace(s.rest) == rest && rest != []
    ensures ReadUnsigned(s) == ReadUnsigned(Open(rest))
  {
    assert SkipSpace(rest) == rest;
    assert Sentry(s) == Open(rest) == Sentry(Open(rest));
  }

  lemma ReadAliasWord(rest: seq<Byte>)
    ensures ReadWord(Open(ALIAS + ([SPACE] + rest))) == (ALIAS, Open([SPACE] + rest))
  {
    var tail := [SPACE] + rest;
    var s := ALIAS + tail;
    WordOf(ALIAS, tail);
    assert s[0] == ALIAS[0];
    assert Sentry(Open(s)) == Open(s);
    assert |ALIAS| < |s|;
  }

  lemma PreambleAsWords(alias: nat, tail: seq<Byte>)
    ensures Preamble(alias) + tail == ALIAS + ([SPACE] + (Decimal(alias) + ([NEWLINE] + tail)))
  {
  }

  lemma ReadSpacedDecimal(n: nat, tail: seq<Byte>)
    requires n < WORD
    ensures ReadUnsigned(Open([SPACE] + (Decimal(n) + ([NEWLINE] + tail)))) == (n, Open([NEWLINE] + tail))
  {
    var rest := Decimal(n) + ([NEWLINE] + tail);
    DecimalStartsPlain(n, [NEWLINE] + tail);
    SkipSpaceRun([SPACE], rest);
    ReadAfterSpace(Open([SPACE] + rest), rest);
    ReadDecimal(n, [NEWLINE] + tail);
  }

  lemma ReadPreambleOf(lib: Library, alias: nat, tail: seq<Byte>)
    requires alias < 2
    requires tail != [] && !IsSpace(tail[0])
    ensures ReadPreamble(lib, Open(Preamble(alias) + tail)) == Some((alias, Open(tail)))
  {
    PreambleAsWords(alias, tail);
    ReadAliasWord(Decimal(alias) + ([NEWLINE] + tail));
    ReadSpacedDecimal(alias, tail);
    WsOf(lib, [NEWLINE], tail);
    SkippedPlain(tail);
  }

  lemma ReadFieldOf(lib: Library, n: nat, spaces: seq<Byte>, tail: seq<Byte>)
    requires n < WORD && spaces != [] && forall i :: 0 <= i < |spaces| ==> IsSpace(spaces[i])
    ensures ReadField(lib, Open(Decimal(n) + (spaces + tail))) == Some((n, Skipped(tail)))
  {
    assert !IsDigit((spaces + tail)[0]);
    ReadDecimal(n, spaces + tail);
    WsOf(lib, spaces, tail);
  }

  /** What reading the count and the separator leaves of a body: white space at its start is gone. */
  function AfterSeparator(lib: Library, n: nat, tail: seq<Byte>): Option<(nat, Stream)> {
    var s := Skipped(tail);
    if s.eof && lib.SentryInWs? then None else Some((n, s))
  }

  lemma WsAgain(lib: Library, tail: seq<Byte>)
    ensures var s := Ws(lib, Skipped(tail));
            if Skipped(tail).eof && lib.SentryInWs? then s.fail else s == Skipped(tail)
  {
    var r := SkipSpace(tail);
    assert SkipSpace(r) == r;
  }

  lemma ReadCountOf(lib: Library, n: nat, tail: seq<Byte>)
    requires n < WORD
    ensures ReadCount(lib, Open(Decimal(n) + ([NEWLINE, NEWLINE] + tail))) == AfterSeparator(lib, n, tail)
  {
    ReadFieldOf(lib, n, [NEWLINE, NEWLINE], tail);
    WsAgain(lib, tail);
  }

  lemma DecimalStartsPlain(n: nat, tail: seq<Byte>)
    ensures Decimal(n) + tail != [] && !IsSpace((Decimal(n) + tail)[0])
  {
    DigitIsPlain((Decimal(n) + tail)[0]);
  }

  lemma ReadSizesOf(lib: Library, sizeBits: nat, numElements: nat, tail: seq<Byte>)
    requires sizeBits < WORD && numElements < WORD
    ensures var after := AfterSeparator(lib, numElements, tail);
            ReadSizes(lib, Open(Sizes(sizeBits, numElements) + tail)) ==
            if after.None? then None else Some((sizeBits, numElements, after.value.1))
  {
    var counted := Decimal(numElements) + ([NEWLINE, NEWLINE] + tail);
    SizesAsLines(sizeBits, numElements, tail);
    DecimalStartsPlain(numElements, [NEWLINE, NEWLINE] + tail);
    ReadFieldOf(lib, sizeBits, [NEWLINE], counted);
    SkippedPlain(counted);
    ReadCountOf(lib, numElements, tail);
  }

  lemma SizesAsLines(sizeBits: nat, numElements: nat, tail: seq<Byte>)
    ensures Sizes(sizeBits, numElements) + tail
            == Decimal(sizeBits) + ([NEWLINE] + (Decimal(numElements) + ([NEWLINE, NEWLINE] + tail)))
  {
  }

  lemma SizesStartPlain(sizeBits: nat, numElements: nat, tail: seq<Byte>)
    ensures Sizes(sizeBits, numElements) + tail != [] && !IsSpace((Sizes(sizeBits, numElements) + tail)[0])
  {
    SizesAsLines(sizeBits, numElements, tail);
    DecimalStartsPlain(sizeBits, [NEWLINE] + (Decimal(numElements) + ([NEWLINE, NEWLINE] + tail)));
  }

  /** Reading a header is reading its sizes, once its first line is whole. */
  lemma ReadHeaderFrom(lib: Library, alias: nat, rest: seq<Byte>)
    requires alias < 2
    requires rest != [] && !IsSpace(rest[0])
    ensures var sizes := ReadSizes(lib, Open(rest));
            ReadHeader(lib, Preamble(alias) + rest) ==
            if sizes.None? then Bad else Parsed(alias, sizes.value.0, sizes.value.1, sizes.value.2)
  {
    ReadPreambleOf(lib, alias, rest);
  }

  lemma ReadHeaderOf(lib: Library, alias: nat, sizeBits: nat, numElements: nat, tail: seq<Byte>)
    requires alias < 2 && sizeBits < WORD && numElements < WORD
    ensures var after := AfterSeparator(lib, numElements, tail);
            ReadHeader(lib, Header(alias, sizeBits, numElements) + tail) ==
            if after.None? then Bad else Parsed(alias, sizeBits, numElements, after.value.1)
  {
    var rest := Sizes(sizeBits, numElements) + tail;
    assert Header(alias, sizeBits, numElements) + tail == Preamble(alias) + rest;
    SizesStartPlain(sizeBits, numElements, tail);
    ReadHeaderFrom(lib, alias, rest);
    ReadSizesOf(lib, sizeBits, numElements, tail);
  }

  // ----- pointer records -----

  /** The condition for a pointer record to be read back: the reader skips white space before the body. */
  predicate Readable(lib: Library, body: seq<Byte>) {
    if body == [] then lib.PlainWs? else !IsSpace(body[0])
  }

  /** One white byte followed by another kind of byte: the record is accepted, and read one byte late. */
  predicate Shifted(body: seq<Byte>) {
    |body| >= 2 && IsSpace(body[0]) && !IsSpace(body[1])
  }

  lemma SkipIntoBody(body: seq<Byte>)
    requires body != []
    ensures !IsSpace(body[0]) ==> SkipSpace(body + [NEWLINE]) == body + [NEWLINE]
    ensures Shifted(body) ==> SkipSpace(body + [NEWLINE]) == body[1..] + [NEWLINE]
    ensures IsSpace(body[0]) && !Shifted(body) ==> |SkipSpace(body + [NEWLINE])| < |body|
  {
    var s := body + [NEWLINE];
    assert s[1..] == body[1..] + [NEWLINE];
    if IsSpace(body[0]) {
      assert SkipSpace(s) == SkipSpace(s[1..]);
      if !Shifted(body) {
        assert IsSpace(s[1]);
        assert SkipSpace(s[1..]) == SkipSpace(s[1..][1..]);
      }
    }
  }

  /** Taking `n` bytes leaves `spaces` and the end of the file. */
  lemma ReadBodyThen(lib: Library, bytes: seq<Byte>, spaces: seq<Byte>)
    requires forall i :: 0 <= i < |spaces| ==> IsSpace(spaces[i])
    ensures ReadBody(lib, Open(bytes + spaces), |bytes|) == Some((bytes, Stream([], true, false)))
  {
    var s := Open(bytes + spaces);
    ReadBytesOf(s, |bytes|);
    assert s.rest[..|bytes|] == bytes && s.rest[|bytes|..] == spaces + [];
    WsOf(lib, spaces, []);
  }

  lemma ReadBodyFails(lib: Library, s: Stream, n: nat)
    requires n > |s.rest| || (n > 0 && !s.Good())
    ensures ReadBody(lib, s, n).None?
  {
    ReadBytesFails(s, n);
  }

  /** Reading `|body|` bytes from what the header left of a body and its final newline. */
  lemma ReadBodyOf(lib: Library, body: seq<Byte>)
    requires body != []
    ensures var taken := ReadBody(lib, Skipped(body + [NEWLINE]), |body|);
            if Readable(lib, body) then taken == Some((body, Stream([], true, false)))
            else if Shifted(body) then taken == Some((body[1..] + [NEWLINE], Stream([], true, false)))
            else taken.None?
  {
    SkipIntoBody(body);
    if Readable(lib, body) {
      ReadBodyThen(lib, body, [NEWLINE]);
    } else if Shifted(body) {
      var late := body[1..] + [NEWLINE];
      assert late + [] == late;
      ReadBodyThen(lib, late, []);
    } else {
      ReadBodyFails(lib, Skipped(body + [NEWLINE]), |body|);
    }
  }

  lemma EmptyBodyOf(lib: Library)
    ensures Skipped([] + [NEWLINE]) == Stream([], true, false)
    ensures lib.PlainWs? ==> ReadBody(lib, Skipped([] + [NEWLINE]), 0) == Some(([], Stream([], true, false)))
  {
    var tail: seq<Byte> := [] + [NEWLINE];
    assert tail == [NEWLINE] + [];
    SkipSpaceRun([NEWLINE], []);
  }

  /** What the reader and the validator see of a pointer record behind its header. */
  lemma PointerRecordParsed(lib: Library, sizeBits: nat, numElements: nat, body: seq<Byte>)
    requires sizeBits < WORD && numElements < WORD
    ensures var after := Skipped(body + [NEWLINE]);
            ReadHeader(lib, PointerFile(sizeBits, numElements, body)) ==
            if after.eof && lib.SentryInWs? then Bad else Parsed(0, sizeBits, numElements, after)
  {
    ReadHeaderOf(lib, 0, sizeBits, numElements, body + [NEWLINE]);
  }

  /** Everything the reader and the validator can make of a pointer record the writer wrote. */
  lemma PointerRecordOutcome(lib: Library, sizeBits: nat, numElements: nat, body: seq<Byte>)
    requires sizeBits < WORD && numElements < WORD
    requires |body| == BytesFor(TotalBits(sizeBits, numElements))
    ensures ReadPointer(lib, sizeBits, numElements, PointerFile(sizeBits, numElements, body)) ==
            if Readable(lib, body) then Some(body)
            else if Shifted(body) then Some(body[1..] + [NEWLINE])
            else None
    ensures RecordValid(lib, PointerFile(sizeBits, numElements, body)) <==> Readable(lib, body) || Shifted(body)
  {
    PointerRecordParsed(lib, sizeBits, numElements, body);
    var after := Skipped(body + [NEWLINE]);
    if body == [] {
      EmptyBodyOf(lib);
    } else {
      ReadBodyOf(lib, body);
      if after.eof {
        ReadBodyFails(lib, after, |body|);
      }
    }
  }

  /** A saved body comes back exactly when it is readable; no shifted reading happens to be the body. */
  lemma PointerRoundTrip(lib: Library, sizeBits: nat, numElements: nat, body: seq<Byte>)
    requires sizeBits < WORD && numElements < WORD
    requires |body| == BytesFor(TotalBits(sizeBits, numElements))
    ensures ReadPointer(lib, sizeBits, numElements, PointerFile(sizeBits, numElements, body)) == Some(body)
            <==> Readable(lib, body)
  {
    PointerRecordOutcome(lib, sizeBits, numElements, body);
    if Shifted(body) && body[1..] + [NEWLINE] == body {
      EqualToItsShift(body, NEWLINE);
      assert false;
    }
  }

  lemma {:induction false} EqualToItsShift(s: seq<Byte>, last: Byte)
    requires s != [] && s[1..] + [last] == s
    ensures forall i :: 0 <= i < |s| ==> s[i] == last
  {
    if |s| > 1 {
      var t := s[1..];
      assert t[1..] + [last] == t by {
        assert forall i :: 0 <= i < |t| ==> t[i] == s[i + 1] == (s[1..] + [last])[i + 1];
      }
      EqualToItsShift(t, last);
      assert s[0] == (s[1..] + [last])[0] == t[0];
    }
  }

  /** The 32-bit value 10 is checkpointed, validates, and is restored as 167772160. */
  lemma TenIsNotRestored(lib: Library)
    ensures var file := PointerFile(32, 1, [10, 0, 0, 0]);
            RecordValid(lib, file) && ReadPointer(lib, 32, 1, file) == Some([0, 0, 0, 10])
  {
    var body: seq<Byte> := [10, 0, 0, 0];
    PointerRecordOutcome(lib, 32, 1, body);
    assert body[1..] + [NEWLINE] == [0, 0, 0, 10];
  }

  // ----- alias records -----

  /** A number on the last line of a file. */
  lemma ReadLastField(lib: Library, n: nat)
    requires n < WORD
    ensures ReadField(lib, Open(Decimal(n) + [NEWLINE])) == Some((n, Stream([], true, false)))
  {
    assert [NEWLINE] + [] == [NEWLINE];
    ReadFieldOf(lib, n, [NEWLINE], []);
  }

  lemma AliasRoundTrip(lib: Library, sizeBits: nat, numElements: nat, record: nat)
    requires sizeBits < WORD && numElements < WORD && record < WORD
    ensures ReadAlias(lib, AliasFile(sizeBits, numElements, record)) == Some(record)
    ensures RecordValid(lib, AliasFile(sizeBits, numElements, record))
  {
    var tail := Decimal(record) + [NEWLINE];
    DecimalStartsPlain(record, [NEWLINE]);
    SkippedPlain(tail);
    ReadHeaderOf(lib, 1, sizeBits, numElements, tail);
    ReadLastField(lib, record);
  }

  // ----- the info file -----

  lemma ReadSignedDecimal(n: nat, tail: seq<Byte>)
    requires n < WORD / 2
    requires tail != [] ==> !IsDigit(tail[0])
    ensures ReadSigned(Open(Decimal(n) + tail)) == (n as int, Stream(tail, tail == [], false))
  {
    ReadDigits(Decimal(n), tail);
    ValueOfDecimal(n);
  }

  lemma InfoRoundTrip(lib: Library, labelNumber: nat, numVariables: nat)
    requires labelNumber < WORD / 2 && numVariables < WORD
    ensures ReadInfo(lib, InfoFile(labelNumber, numVariables)) == Some((labelNumber as int, numVariables))
  {
    var tail := Decimal(numVariables) + [NEWLINE];
    DecimalStartsPlain(numVariables, [NEWLINE]);
    assert InfoFile(labelNumber, numVariables) == Decimal(labelNumber) + ([NEWLINE] + tail);
    ReadSignedDecimal(labelNumber, [NEWLINE] + tail);
    WsOf(lib, [NEWLINE], tail);
    SkippedPlain(tail);
    ReadLastField(lib, numVariables);
  }
}
