/**
  Checkpoint directories: which of them the validator accepts, and what it makes of
  a directory whose writing was cut off at any byte.
 */
module Directory {
  import opened Streams
  import opened Records

  /** One checkpoint directory: the info file and the record files, which are made in order from number 0. */
  datatype Dir = Dir(info: Option<File>, bodies: seq<File>)

  datatype Record =
    | PointerRecord(sizeBits: nat, numElements: nat, body: seq<Byte>)
    | AliasRecord(sizeBits: nat, numElements: nat, target: nat)
  {
    function File(): File {
      match this
      case PointerRecord(size, count, body) => PointerFile(size, count, body)
      case AliasRecord(size, count, target) => AliasFile(size, count, target)
    }

    /** The sizes are 64-bit words and the body is as long as they say. */
    predicate Valid() {
      && sizeBits < WORD && numElements < WORD
      && (PointerRecord? ==> |body| == BytesFor(TotalBits(sizeBits, numElements)))
      && (AliasRecord? ==> target < WORD)
    }

    /** The bytes before the final newline, without which the record is not whole. */
    function Length(): nat {
      |File()| - 1
    }
  }

  /** A whole directory with records `rs`. */
  function Written(labelNumber: nat, count: nat, rs: seq<Record>): Dir {
    Files(InfoFile(labelNumber, count), rs)
  }

  function Files(info: File, rs: seq<Record>): Dir {
    Dir(Some(info), seq(|rs|, i requires 0 <= i < |rs| => rs[i].File()))
  }

  /** The validator's verdict on record files, as a function of the file alone. */
  function Check(lib: Library): File -> bool {
    (file: File) => RecordValid(lib, file)
  }

  ghost predicate JudgesFiles(lib: Library, check: File -> bool) {
    forall file {:trigger RecordValid(lib, file)} :: check(file) == RecordValid(lib, file)
  }

  predicate Passes(check: File -> bool, dir: Dir, i: nat) {
    i < |dir.bodies| && check(dir.bodies[i])
  }

  predicate AllPass(check: File -> bool, dir: Dir, count: nat) {
    forall i: nat :: i < count ==> Passes(check, dir, i)
  }

  /** Label and record count of a directory with a readable info file and passing records. */
  function Verdict(info: Option<(int, nat)>, check: File -> bool, dir: Dir): Option<(nat, nat)> {
    if info.None? || info.value.0 < 0 || !AllPass(check, dir, info.value.1) then None
    else Some((info.value.0, info.value.1))
  }

  /** The label and number of records of a directory the validator accepts. */
  function Accepted(lib: Library, dir: Dir): Option<(nat, nat)> {
    if dir.info.None? then None else Verdict(ReadInfo(lib, dir.info.value), Check(lib), dir)
  }

  /** The part of `__acriilCheckpointValid` behind the header of a pointer record: the body, byte by byte. */
  method BodyIsValid(lib: Library, body: Stream, totalBits: nat) returns (valid: bool)
    requires !body.fail
    ensures valid == (ReadBody(lib, body, BytesFor(totalBits)).Some? && ReadBody(lib, body, BytesFor(totalBits)).value.1.eof)
  {
    var s, i := body, 0;
    while i < totalBits
      invariant i % 8 == 0 && i <= 8 * BytesFor(totalBits)
      invariant i / 8 <= |body.rest| && (i > 0 ==> body.Good())
      invariant s == body.(rest := body.rest[i / 8..])
    {
      if !s.Good() || s.rest == [] {
        ReadBytesFails(body, BytesFor(totalBits));
        return false;
      }
      s := s.(rest := s.rest[1..]);
      i := i + 8;
    }
    if totalBits > 0 { ReadBytesOf(body, BytesFor(totalBits)); }
    s := Ws(lib, s);
    valid := !s.fail && s.eof;
  }

  /** The verdict on one record file, step by step; `check` is the verdict as a function. */
  method FileIsValid(lib: Library, file: File, ghost check: File -> bool) returns (valid: bool)
    requires JudgesFiles(lib, check)
    ensures valid == check(file)
  {
    assert check(file) == RecordValid(lib, file);
    var h := ReadHeader(lib, file);
    if h.Bad? {
      return false;
    }
    if h.alias != 0 {
      var target := ReadField(lib, h.body);
      return target.Some? && target.value.1.eof;
    }
    HeaderLeavesGood(lib, file);
    valid := BodyIsValid(lib, h.body, TotalBits(h.sizeBits, h.numElements));
  }

  /** The loop of `__acriilCheckpointValid` over the record files. */
  method AllFilesValid(lib: Library, dir: Dir, count: nat, ghost check: File -> bool) returns (valid: bool)
    requires JudgesFiles(lib, check)
    ensures valid == AllPass(check, dir, count)
  {
    valid := true;
    var i := 0;
    while i < count && valid
      invariant i <= count && valid == AllPass(check, dir, i)
    {
      valid := false;
      if i < |dir.bodies| {
        valid := FileIsValid(lib, dir.bodies[i], check);
      }
      assert valid == Passes(check, dir, i);
      i := i + 1;
    }
  }

  /** The info file, as far as the validator gets with it. */
  method OpenInfo(lib: Library, dir: Dir) returns (info: Option<(int, nat)>)
    ensures info == if dir.info.None? then None else ReadInfo(lib, dir.info.value)
  {
    info := if dir.info.None? then None else ReadInfo(lib, dir.info.value);
  }

  /** `__acriilCheckpointValid` */
  method CheckpointValid(lib: Library, dir: Dir) returns (valid: bool, labelNumber: int, numVariables: nat)
    ensures valid == Accepted(lib, dir).Some?
    ensures valid ==> labelNumber >= 0 && Accepted(lib, dir) == Some((labelNumber, numVariables))
  {
    ghost var check := Check(lib);
    labelNumber, numVariables := 0, 0;
    var info := OpenInfo(lib, dir);
    if info.None? || info.value.0 < 0 {
      return false, labelNumber, numVariables;
    }
    labelNumber, numVariables := info.value.0, info.value.1;
    valid := AllFilesValid(lib, dir, numVariables, check);
  }

  /** When the validator takes a whole record. */
  predicate Acceptable(lib: Library, r: Record) {
    r.AliasRecord? || Readable(lib, r.body) || Shifted(r.body)
  }

  function AcceptableBy(lib: Library): Record -> bool {
    (r: Record) => Acceptable(lib, r)
  }

  /** A directory with all its records is accepted exactly when each pointer body is read back, or read late. */
  lemma WrittenAccepted(lib: Library, labelNumber: nat, rs: seq<Record>)
    requires labelNumber < WORD / 2 && |rs| < WORD
    requires forall r :: r in rs ==> r.Valid()
    ensures Accepted(lib, Written(labelNumber, |rs|, rs)) ==
            if AllAcceptable(AcceptableBy(lib), rs) then Some((labelNumber, |rs|)) else None
  {
    InfoRoundTrip(lib, labelNumber, |rs|);
    FilesAccepted(lib, InfoFile(labelNumber, |rs|), labelNumber, rs);
  }

  predicate AllAcceptable(acceptable: Record -> bool, rs: seq<Record>) {
    forall r :: r in rs ==> acceptable(r)
  }

  predicate Agree(check: File -> bool, acceptable: Record -> bool, rs: seq<Record>) {
    forall r :: r in rs ==> check(r.File()) == acceptable(r)
  }

  lemma CheckAgrees(lib: Library, rs: seq<Record>)
    requires forall r :: r in rs ==> r.Valid()
    ensures Agree(Check(lib), AcceptableBy(lib), rs)
  {
    forall r | r in rs
      ensures Check(lib)(r.File()) == AcceptableBy(lib)(r)
    {
      WrittenRecordValid(lib, r);
    }
  }

  lemma FilesAccepted(lib: Library, info: File, labelNumber: nat, rs: seq<Record>)
    requires ReadInfo(lib, info) == Some((labelNumber as int, |rs|))
    requires forall r :: r in rs ==> r.Valid()
    ensures Accepted(lib, Files(info, rs)) ==
            if AllAcceptable(AcceptableBy(lib), rs) then Some((labelNumber, |rs|)) else None
  {
    CheckAgrees(lib, rs);
    VerdictOnWritten(ReadInfo(lib, info), Check(lib), AcceptableBy(lib), Files(info, rs), rs);
  }

  lemma VerdictOnWritten(info: Option<(int, nat)>, check: File -> bool, acceptable: Record -> bool, dir: Dir, rs: seq<Record>)
    requires info.Some? && info.value.0 >= 0 && info.value.1 == |rs|
    requires Agree(check, acceptable, rs)
    requires forall i :: 0 <= i < |rs| ==> i < |dir.bodies| && dir.bodies[i] == rs[i].File()
    ensures Verdict(info, check, dir) ==
            if AllAcceptable(acceptable, rs) then Some((info.value.0 as nat, |rs|)) else None
  {
    if r :| r in rs && !acceptable(r) {
      var i :| 0 <= i < |rs| && rs[i] == r;
      assert !Passes(check, dir, i);
      assert !AllPass(check, dir, |rs|);
    } else {
      forall i: nat | i < |rs| ensures Passes(check, dir, i) {
        assert rs[i] in rs && check(rs[i].File()) == acceptable(rs[i]);
      }
    }
  }

  lemma WrittenRecordValid(lib: Library, r: Record)
    requires r.Valid()
    ensures RecordValid(lib, r.File()) == Acceptable(lib, r)
  {
    match r
    case PointerRecord(size, count, body) => PointerRecordOutcome(lib, size, count, body);
    case AliasRecord(size, count, target) => AliasRoundTrip(lib, size, count, target);
  }

  // ----- a record cut off at some byte -----

  /** A stream read to its end. */
  predicate Exhausted(s: Stream) {
    s.rest == [] && s.eof
  }

  lemma NoFieldAtEnd(lib: Library, s: Stream)
    requires !s.Good() || s.rest == []
    ensures ReadField(lib, s).None? && ReadCount(lib, s).None?
  {
  }

  lemma CutPreamble(lib: Library, alias: nat, k: nat)
    requires alias < 2 && k <= |Preamble(alias)|
    ensures var r := ReadPreamble(lib, Open(Preamble(alias)[..k]));
            r.None? || Exhausted(r.value.1)
  {
    assert Decimal(alias) == [Digit(alias)];
    var line := [Digit(alias), NEWLINE];
    assert Preamble(alias) == ALIAS + ([SPACE] + line);
    PrefixOfConcat(ALIAS, [SPACE] + line, k);
    if k <= |ALIAS| {
      CutWord(lib, ALIAS[..k]);
    } else {
      var m := k - |ALIAS|;
      PrefixOfConcat([SPACE], line, m);
      CutNumberAfterWord(lib, alias, m - 1);
      assert ([SPACE] + line)[..m] == [SPACE] + line[..m - 1];
      ReadAliasWord(line[..m - 1]);
    }
  }

  lemma CutWord(lib: Library, word: seq<Byte>)
    requires word <= ALIAS
    ensures ReadPreamble(lib, Open(word)).None?
  {
    assert word + [] == word;
    WordOf(word, []);
    assert ReadWord(Open(word)).1.eof || word == [];
  }

  lemma CutNumberAfterWord(lib: Library, alias: nat, k: nat)
    requires alias < 2 && k <= 2
    ensures var (n, s) := ReadUnsigned(Open([SPACE] + [Digit(alias), NEWLINE][..k]));
            Ws(lib, s).fail || Exhausted(Ws(lib, s))
  {
    var text := [Digit(alias), NEWLINE][..k];
    SkipSpaceRun([SPACE], text);
    if k == 0 {
      assert text == [];
    } else {
      var tail := [NEWLINE][..k - 1];
      assert text == Decimal(alias) + tail;
      ReadAfterSpace(Open([SPACE] + text), text);
      ReadDecimal(alias, tail);
      if k == 2 {
        assert tail == [NEWLINE] + [];
        WsOf(lib, [NEWLINE], []);
      }
    }
  }

  /** A decimal number cut short, or whole with some white space behind it, and then nothing. */
  lemma CutField(lib: Library, n: nat, spaces: seq<Byte>, k: nat)
    requires n < WORD && forall i :: 0 <= i < |spaces| ==> IsSpace(spaces[i])
    requires k <= |Decimal(n)| + |spaces|
    ensures var r := ReadField(lib, Open((Decimal(n) + spaces)[..k]));
            r.None? || (Exhausted(r.value.1) && (n > 0 ==> 0 < r.value.0 <= n))
  {
    var digits := Decimal(n);
    PrefixOfConcat(digits, spaces, k);
    if k == 0 {
      NoFieldAtEnd(lib, Open(digits[..0]));
    } else if k <= |digits| {
      var cut := digits[..k];
      assert cut + [] == cut;
      ReadDigits(cut, []);
      if n > 0 { ValueOfPrefix(n, k); }
    } else {
      var tail := spaces[..k - |digits|];
      assert tail + [] == tail;
      ReadFieldOf(lib, n, tail, []);
    }
  }

  lemma CutCount(lib: Library, n: nat, k: nat)
    requires n < WORD && k <= |Decimal(n)| + 2
    ensures var r := ReadCount(lib, Open((Decimal(n) + [NEWLINE, NEWLINE])[..k]));
            r.None? || (Exhausted(r.value.1) && (n > 0 ==> 0 < r.value.0 <= n))
  {
    CutField(lib, n, [NEWLINE, NEWLINE], k);
  }

  lemma CutSizes(lib: Library, sizeBits: nat, numElements: nat, k: nat)
    requires sizeBits < WORD && numElements < WORD
    requires k <= |Sizes(sizeBits, numElements)|
    ensures var r := ReadSizes(lib, Open(Sizes(sizeBits, numElements)[..k]));
            r.Some? ==>
              Exhausted(r.value.2) && r.value.0 == sizeBits && (numElements > 0 ==> 0 < r.value.1 <= numElements)
  {
    var sizeLine := Decimal(sizeBits) + [NEWLINE];
    var countLines := Decimal(numElements) + [NEWLINE, NEWLINE];
    PrefixOfConcat(sizeLine, countLines, k);
    if k <= |sizeLine| {
      CutField(lib, sizeBits, [NEWLINE], k);
      var r := ReadField(lib, Open(sizeLine[..k]));
      if r.Some? { NoFieldAtEnd(lib, r.value.1); }
    } else {
      var m := k - |sizeLine|;
      var rest := countLines[..m];
      assert sizeLine + rest == Decimal(sizeBits) + ([NEWLINE] + rest);
      ReadFieldOf(lib, sizeBits, [NEWLINE], rest);
      CutPlain(numElements, [NEWLINE, NEWLINE], m);
      SkippedPlain(rest);
      CutCount(lib, numElements, m);
    }
  }

  /** The rest of a header, cut short or with nothing behind it. */
  ghost predicate AtEnd(h: ParsedHeader, alias: nat, sizeBits: nat, numElements: nat) {
    h.Parsed? ==>
      && Exhausted(h.body) && h.alias == alias && h.sizeBits == sizeBits
      && (numElements > 0 ==> 0 < h.numElements <= numElements)
  }

  lemma CutSizeLines(lib: Library, alias: nat, sizeBits: nat, numElements: nat, k: nat)
    requires alias < 2 && sizeBits < WORD && numElements < WORD && 0 < k <= |Sizes(sizeBits, numElements)|
    ensures AtEnd(ReadHeader(lib, Preamble(alias) + Sizes(sizeBits, numElements)[..k]), alias, sizeBits, numElements)
  {
    PlainStart(sizeBits, numElements, k);
    ReadHeaderFrom(lib, alias, Sizes(sizeBits, numElements)[..k]);
    CutSizes(lib, sizeBits, numElements, k);
  }

  lemma CutFirstLine(lib: Library, alias: nat, k: nat)
    requires alias < 2 && k <= |Preamble(alias)|
    ensures ReadHeader(lib, Preamble(alias)[..k]).Bad?
  {
    CutPreamble(lib, alias, k);
    NoHeaderAtEnd(lib, ReadPreamble(lib, Open(Preamble(alias)[..k])));
  }

  /** A header cut short, or with nothing behind it, leaves nothing to read. */
  lemma CutHeader(lib: Library, alias: nat, sizeBits: nat, numElements: nat, k: nat)
    requires alias < 2 && sizeBits < WORD && numElements < WORD
    requires k <= |Header(alias, sizeBits, numElements)|
    ensures AtEnd(ReadHeader(lib, Header(alias, sizeBits, numElements)[..k]), alias, sizeBits, numElements)
  {
    PrefixOfConcat(Preamble(alias), Sizes(sizeBits, numElements), k);
    if k <= |Preamble(alias)| {
      CutFirstLine(lib, alias, k);
    } else {
      CutSizeLines(lib, alias, sizeBits, numElements, k - |Preamble(alias)|);
    }
  }

  lemma PlainStart(sizeBits: nat, numElements: nat, k: nat)
    requires 0 < k <= |Sizes(sizeBits, numElements)|
    ensures Sizes(sizeBits, numElements)[..k] != [] && !IsSpace(Sizes(sizeBits, numElements)[..k][0])
  {
    var sizes := Sizes(sizeBits, numElements);
    SizesStartPlain(sizeBits, numElements, []);
    assert sizes + [] == sizes;
  }

  lemma NoHeaderAtEnd(lib: Library, alias: Option<(nat, Stream)>)
    requires alias.Some? ==> Exhausted(alias.value.1)
    ensures HeaderFrom(lib, alias) == Bad
  {
    if alias.Some? { NoFieldAtEnd(lib, alias.value.1); }
  }

  lemma CutPlain(n: nat, spaces: seq<Byte>, k: nat)
    requires 0 < k <= |Decimal(n)| + |spaces|
    ensures var s := (Decimal(n) + spaces)[..k];
            s != [] && !IsSpace(s[0])
  {
    DigitIsPlain((Decimal(n) + spaces)[..k][0]);
  }

  /**
    A pointer record cut off after `k` bytes: it passes validation exactly when it is whole and acceptable,
    or lacks nothing but its final newline and starts with a readable byte.
   */
  lemma CutPointerRecord(lib: Library, r: Record, k: nat)
    requires r.PointerRecord? && r.Valid() && r.body != []
    requires 0 < r.sizeBits && 0 < r.numElements && r.sizeBits * r.numElements < WORD
    requires k <= |r.File()|
    ensures RecordValid(lib, r.File()[..k]) <==>
            (k == |r.File()| && Acceptable(lib, r)) || (k == r.Length() && Readable(lib, r.body))
  {
    var header := Header(0, r.sizeBits, r.numElements);
    var tail := r.body + [NEWLINE];
    PrefixOfConcat(header, tail, k);
    if k == |r.File()| {
      assert r.File()[..k] == r.File();
      PointerRecordOutcome(lib, r.sizeBits, r.numElements, r.body);
    } else if k <= |header| {
      CutHeader(lib, 0, r.sizeBits, r.numElements, k);
      NothingBehindHeader(lib, ReadHeader(lib, header[..k]), r.sizeBits, r.numElements);
    } else {
      PrefixOfConcat(r.body, [NEWLINE], k - |header|);
      ReadHeaderOf(lib, 0, r.sizeBits, r.numElements, r.body[..k - |header|]);
      CutBody(lib, r.body, k - |header|);
    }
  }

  lemma NothingBehindHeader(lib: Library, h: ParsedHeader, size: nat, whole: nat)
    requires 0 < size && size * whole < WORD
    requires h.Parsed? ==> Exhausted(h.body) && h.sizeBits == size && 0 < h.numElements <= whole
    ensures h.Parsed? ==> ReadBody(lib, h.body, BytesFor(TotalBits(h.sizeBits, h.numElements))).None?
                          && ReadField(lib, h.body).None?
  {
    if h.Parsed? {
      SmallerTotal(size, h.numElements, whole);
      ReadBodyFails(lib, h.body, BytesFor(TotalBits(h.sizeBits, h.numElements)));
      NoFieldAtEnd(lib, h.body);
    }
  }

  lemma SmallerTotal(size: nat, count: nat, whole: nat)
    requires 0 < size && 0 < count <= whole && size * whole < WORD
    ensures TotalBits(size, count) > 0
  {
    ProductIsTimes(size, count);
    assert 0 < size * count <= size * whole;
  }

  lemma CutBody(lib: Library, body: seq<Byte>, k: nat)
    requires body != [] && k <= |body|
    ensures var taken := ReadBody(lib, Skipped(body[..k]), |body|);
            (taken.Some? && taken.value.1.eof) <==> k == |body| && Readable(lib, body)
  {
    var part := body[..k];
    if k == |body| && Readable(lib, body) {
      assert part == body && body + [] == body;
      SkippedPlain(body);
      ReadBodyThen(lib, body, []);
    } else {
      assert |SkipSpace(part)| < |body|;
      ReadBodyFails(lib, Skipped(part), |body|);
    }
  }

  /**
    An alias record cut off after `k` bytes: it passes validation exactly when it is whole, or, where the end of the file
    is no failure for `std::ws`, already when the first digit of its number is there.
   */
  lemma CutAliasRecord(lib: Library, sizeBits: nat, numElements: nat, target: nat, k: nat)
    requires sizeBits < WORD && numElements < WORD && target < WORD && k <= |AliasFile(sizeBits, numElements, target)|
    ensures RecordValid(lib, AliasFile(sizeBits, numElements, target)[..k]) <==>
            k == |AliasFile(sizeBits, numElements, target)|
            || (lib.PlainWs? && k > |Header(1, sizeBits, numElements)|)
  {
    var file := AliasFile(sizeBits, numElements, target);
    var header := Header(1, sizeBits, numElements);
    var line := Decimal(target) + [NEWLINE];
    PrefixOfConcat(header, line, k);
    if k == |file| {
      assert file[..k] == file;
      AliasRoundTrip(lib, sizeBits, numElements, target);
    } else if k <= |header| {
      CutHeader(lib, 1, sizeBits, numElements, k);
      NothingForAlias(lib, ReadHeader(lib, header[..k]));
    } else {
      CutAliasNumber(lib, sizeBits, numElements, target, k - |header|);
    }
  }

  lemma CutAliasNumber(lib: Library, sizeBits: nat, numElements: nat, target: nat, m: nat)
    requires sizeBits < WORD && numElements < WORD && target < WORD && 0 < m <= |Decimal(target)|
    ensures RecordValid(lib, Header(1, sizeBits, numElements) + (Decimal(target) + [NEWLINE])[..m]) <==> lib.PlainWs?
  {
    var line := (Decimal(target) + [NEWLINE])[..m];
    CutPlain(target, [NEWLINE], m);
    SkippedPlain(line);
    ReadHeaderOf(lib, 1, sizeBits, numElements, line);
    CutNumber(lib, target, m);
  }

  /** The number 12, cut to 1: where the end of the file is no failure, the record passes and names another one. */
  lemma CutNumberIsMisread()
    ensures var file := AliasFile(8, 1, 12);
            var cut := file[..|file| - 2];
            RecordValid(PlainWs, cut) && ReadAlias(PlainWs, cut) == Some(1) && !RecordValid(SentryInWs, cut)
  {
    var k := |AliasFile(8, 1, 12)| - 2;
    Twelve(Header(1, 8, 1), AliasFile(8, 1, 12));
    CutAliasRecord(PlainWs, 8, 1, 12, k);
    CutAliasRecord(SentryInWs, 8, 1, 12, k);
    ReadsOne(8, 1);
  }

  lemma Twelve(header: seq<Byte>, file: File)
    requires file == header + (Decimal(12) + [NEWLINE])
    ensures |file| == |header| + 3 && file[..|file| - 2] == header + Decimal(1)
  {
    assert Decimal(12) == Decimal(1) + [Digit(2)] && Decimal(1) == [Digit(1)];
  }

  lemma ReadsOne(sizeBits: nat, numElements: nat)
    requires sizeBits < WORD && numElements < WORD
    ensures ReadAlias(PlainWs, Header(1, sizeBits, numElements) + Decimal(1)) == Some(1)
  {
    assert Decimal(1) + [] == Decimal(1);
    DecimalStartsPlain(1, []);
    SkippedPlain(Decimal(1));
    ReadHeaderOf(PlainWs, 1, sizeBits, numElements, Decimal(1));
    ReadDecimal(1, []);
  }

  lemma NothingForAlias(lib: Library, h: ParsedHeader)
    requires h.Parsed? ==> Exhausted(h.body)
    ensures h.Parsed? ==> ReadField(lib, h.body).None?
  {
    if h.Parsed? { NoFieldAtEnd(lib, h.body); }
  }

  /** The digits of a number, cut before the end of the line. */
  lemma CutNumber(lib: Library, n: nat, m: nat)
    requires n < WORD && 0 < m <= |Decimal(n)|
    ensures var r := ReadField(lib, Open((Decimal(n) + [NEWLINE])[..m]));
            if lib.PlainWs? then r.Some? && r.value.1.eof else r.None?
  {
    var cut := Decimal(n)[..m];
    PrefixOfConcat(Decimal(n), [NEWLINE], m);
    assert cut + [] == cut;
    ReadDigits(cut, []);
    DecimalBound(n, m);
  }

  lemma DecimalBound(n: nat, m: nat)
    requires n < WORD && 0 < m <= |Decimal(n)|
    ensures Value(Decimal(n)[..m]) < WORD
  {
    if n > 0 {
      ValueOfPrefix(n, m);
    } else {
      assert Decimal(0)[..m] == Decimal(0);
      ValueOfDecimal(0);
    }
  }

  // ----- a directory cut off at some byte -----

  /** Where writing stopped: in the info file or in a record, before the file was made or after so many bytes. */
  datatype CrashPoint =
    | InInfo(bytes: Option<nat>)
    | InRecord(index: nat, bytes: Option<nat>)

  predicate Possible(labelNumber: nat, rs: seq<Record>, point: CrashPoint) {
    match point
    case InInfo(bytes) => bytes.Some? ==> bytes.value <= |InfoFile(labelNumber, |rs|)|
    case InRecord(j, bytes) => j < |rs| && (bytes.Some? ==> bytes.value <= |rs[j].File()|)
  }

  function CutDir(labelNumber: nat, rs: seq<Record>, point: CrashPoint): Dir
    requires Possible(labelNumber, rs, point)
  {
    var info := InfoFile(labelNumber, |rs|);
    match point
    case InInfo(None) => Dir(None, [])
    case InInfo(Some(k)) => Dir(Some(info[..k]), [])
    case InRecord(j, bytes) => CutFiles(info, rs, j, bytes)
  }

  function CutFiles(info: File, rs: seq<Record>, j: nat, bytes: Option<nat>): Dir
    requires j < |rs| && (bytes.Some? ==> bytes.value <= |rs[j].File()|)
  {
    var whole := Files(info, rs[..j]);
    if bytes.None? then whole else whole.(bodies := whole.bodies + [rs[j].File()[..bytes.value]])
  }

  /** What is left of a record when writing stops after `k` bytes passes validation. */
  predicate CutPasses(lib: Library, r: Record, k: nat) {
    match r
    case PointerRecord(size, count, body) =>
      (k == |r.File()| && Acceptable(lib, r)) || (k == r.Length() && Readable(lib, body))
    case AliasRecord(size, count, target) => k == |r.File()| || (lib.PlainWs? && k > |Header(1, size, count)|)
  }

  /** A pointer record holds something, and its size does not wrap. */
  predicate HasBody(r: Record) {
    r.PointerRecord? ==> r.body != [] && Product(r.sizeBits, r.numElements) < WORD
  }

  lemma CutRecord(lib: Library, r: Record, k: nat)
    requires r.Valid() && HasBody(r) && k <= |r.File()|
    ensures RecordValid(lib, r.File()[..k]) <==> CutPasses(lib, r, k)
  {
    match r
    case PointerRecord(size, count, body) =>
      ProductIsTimes(size, count);
      assert size * count > 0;
      CutPointerRecord(lib, r, k);
    case AliasRecord(size, count, target) => CutAliasRecord(lib, size, count, target, k);
  }

  /** Writing got to the last record, as far as the validator asks, and all the others are acceptable. */
  predicate CutUsable(lib: Library, rs: seq<Record>, point: CrashPoint) {
    && rs != [] && point.InRecord? && point.index == |rs| - 1 && point.bytes.Some?
    && CutPasses(lib, rs[|rs| - 1], point.bytes.value) && AllAcceptable(AcceptableBy(lib), rs[..|rs| - 1])
  }

  /**
    Over all crash points: a directory whose writing stopped is accepted exactly when nothing the validator looks at is
    missing, and then with its own label and count.
   */
  lemma CrashVerdict(lib: Library, labelNumber: nat, rs: seq<Record>, point: CrashPoint)
    requires labelNumber < WORD / 2 && 0 < |rs| < WORD && Possible(labelNumber, rs, point)
    requires (forall r :: r in rs ==> r.Valid()) && HasBody(rs[|rs| - 1])
    ensures Accepted(lib, CutDir(labelNumber, rs, point)) ==
            if CutUsable(lib, rs, point) then Some((labelNumber, |rs|)) else None
  {
    if point.InRecord? {
      var info := InfoFile(labelNumber, |rs|);
      InfoRoundTrip(lib, labelNumber, |rs|);
      CutFilesVerdict(lib, ReadInfo(lib, info), Check(lib), info, labelNumber, rs, point);
    } else if point.bytes.Some? {
      CutInfoRejected(lib, labelNumber, |rs|, point.bytes.value);
    }
  }

  lemma CutFilesVerdict(lib: Library, read: Option<(int, nat)>, check: File -> bool, info: File, labelNumber: nat,
                        rs: seq<Record>, point: CrashPoint)
    requires read == Some((labelNumber as int, |rs|)) && JudgesFiles(lib, check)
    requires |rs| > 0 && (forall r :: r in rs ==> r.Valid()) && HasBody(rs[|rs| - 1])
    requires point.InRecord? && Possible(labelNumber, rs, point)
    ensures Verdict(read, check, CutFiles(info, rs, point.index, point.bytes)) ==
            if CutUsable(lib, rs, point) then Some((labelNumber, |rs|)) else None
  {
    if point.index == |rs| - 1 && point.bytes.Some? {
      LastCut(lib, read, check, info, labelNumber, rs, point.bytes.value);
    } else {
      LastFails(read, check, CutFiles(info, rs, point.index, point.bytes), |rs|);
    }
  }

  lemma LastCut(lib: Library, read: Option<(int, nat)>, check: File -> bool, info: File, labelNumber: nat, rs: seq<Record>, k: nat)
    requires read == Some((labelNumber as int, |rs|)) && JudgesFiles(lib, check)
    requires |rs| > 0 && (forall r :: r in rs ==> r.Valid()) && HasBody(rs[|rs| - 1]) && k <= |rs[|rs| - 1].File()|
    ensures Verdict(read, check, CutFiles(info, rs, |rs| - 1, Some(k))) ==
            if CutPasses(lib, rs[|rs| - 1], k) && AllAcceptable(AcceptableBy(lib), rs[..|rs| - 1])
            then Some((labelNumber, |rs|)) else None
  {
    var last := |rs| - 1;
    assert rs[last] in rs;
    CutRecord(lib, rs[last], k);
    var cut := rs[last].File()[..k];
    assert check(cut) == RecordValid(lib, cut);
    WrittenAgree(lib, check, rs[..last]);
    LastDecides(read, check, AcceptableBy(lib), CutFiles(info, rs, last, Some(k)), rs[..last], cut);
  }

  lemma WrittenAgree(lib: Library, check: File -> bool, rs: seq<Record>)
    requires JudgesFiles(lib, check) && forall r :: r in rs ==> r.Valid()
    ensures Agree(check, AcceptableBy(lib), rs)
  {
    forall r | r in rs ensures check(r.File()) == AcceptableBy(lib)(r) {
      WrittenRecordValid(lib, r);
      assert check(r.File()) == RecordValid(lib, r.File());
    }
  }

  /** A directory that is whole but for its last file. */
  lemma LastDecides(info: Option<(int, nat)>, check: File -> bool, acceptable: Record -> bool, dir: Dir, rs: seq<Record>, last: File)
    requires info.Some? && info.value.0 >= 0 && info.value.1 == |rs| + 1
    requires Agree(check, acceptable, rs)
    requires |dir.bodies| == |rs| + 1 && dir.bodies[|rs|] == last
    requires forall i :: 0 <= i < |rs| ==> dir.bodies[i] == rs[i].File()
    ensures Verdict(info, check, dir) ==
            if check(last) && AllAcceptable(acceptable, rs) then Some((info.value.0 as nat, |rs| + 1)) else None
  {
    if r :| r in rs && !acceptable(r) {
      var i :| 0 <= i < |rs| && rs[i] == r;
      assert !Passes(check, dir, i);
      assert !AllPass(check, dir, |rs| + 1);
    } else {
      forall i: nat | i < |rs| ensures Passes(check, dir, i) {
        assert rs[i] in rs && check(rs[i].File()) == acceptable(rs[i]);
      }
      assert Passes(check, dir, |rs|) == check(last);
    }
  }

  lemma CutInfoRejected(lib: Library, labelNumber: nat, n: nat, k: nat)
    requires labelNumber < WORD / 2 && 0 < n < WORD
    requires k <= |InfoFile(labelNumber, n)|
    ensures Accepted(lib, Dir(Some(InfoFile(labelNumber, n)[..k]), [])).None?
  {
    CutInfo(lib, labelNumber, n, k);
    var file := InfoFile(labelNumber, n)[..k];
    NoFirstRecord(ReadInfo(lib, file), Check(lib), Dir(Some(file), []));
  }

  lemma LastRejected(lib: Library, info: File, labelNumber: nat, count: nat, dir: Dir)
    requires ReadInfo(lib, info) == Some((labelNumber as int, count)) && count > 0
    requires dir.info == Some(info)
    requires |dir.bodies| >= count ==> !RecordValid(lib, dir.bodies[count - 1])
    ensures Accepted(lib, dir).None?
  {
    LastFails(ReadInfo(lib, info), Check(lib), dir, count);
  }

  lemma NoFirstRecord(info: Option<(int, nat)>, check: File -> bool, dir: Dir)
    requires info.Some? ==> info.value.1 > 0
    requires dir.bodies == []
    ensures Verdict(info, check, dir).None?
  {
    assert !Passes(check, dir, 0);
  }

  lemma LastFails(info: Option<(int, nat)>, check: File -> bool, dir: Dir, n: nat)
    requires n > 0 && (info.Some? ==> info.value.1 == n)
    requires |dir.bodies| >= n ==> !check(dir.bodies[n - 1])
    ensures Verdict(info, check, dir).None?
  {
    var last: nat := n - 1;
    assert !Passes(check, dir, last);
  }

  /** An info file cut short never promises zero records. */
  lemma CutInfo(lib: Library, labelNumber: nat, n: nat, k: nat)
    requires labelNumber < WORD / 2 && 0 < n < WORD
    requires k <= |InfoFile(labelNumber, n)|
    ensures var info := ReadInfo(lib, InfoFile(labelNumber, n)[..k]);
            info.Some? ==> info.value.1 > 0
  {
    var first := Decimal(labelNumber) + [NEWLINE];
    var second := Decimal(n) + [NEWLINE];
    PrefixOfConcat(first, second, k);
    if k <= |first| {
      CutLabel(lib, labelNumber, k);
    } else {
      var m := k - |first|;
      assert first + second[..m] == Decimal(labelNumber) + ([NEWLINE] + second[..m]);
      ReadSignedDecimal(labelNumber, [NEWLINE] + second[..m]);
      WsOf(lib, [NEWLINE], second[..m]);
      CutPlain(n, [NEWLINE], m);
      SkippedPlain(second[..m]);
      CutField(lib, n, [NEWLINE], m);
    }
  }

  lemma CutLabel(lib: Library, n: nat, k: nat)
    requires n < WORD / 2 && k <= |Decimal(n)| + 1
    ensures ReadInfo(lib, (Decimal(n) + [NEWLINE])[..k]).None?
  {
    CutLabelRead(n, k);
    NoInfoAtEnd(lib, ReadSigned(Open((Decimal(n) + [NEWLINE])[..k])));
  }

  lemma CutLabelRead(n: nat, k: nat)
    requires n < WORD / 2 && k <= |Decimal(n)| + 1
    ensures var s := ReadSigned(Open((Decimal(n) + [NEWLINE])[..k])).1;
            s.fail || s.rest == [] || s.rest == [NEWLINE]
  {
    var digits := Decimal(n);
    PrefixOfConcat(digits, [NEWLINE], k);
    if 0 < k <= |digits| {
      var cut := digits[..k];
      assert cut + [] == cut;
      ReadDigits(cut, []);
    } else if k > 0 {
      assert [NEWLINE][..1] == [NEWLINE];
      ReadSignedDecimal(n, [NEWLINE]);
    }
  }

  lemma NoInfoAtEnd(lib: Library, read: (int, Stream))
    requires read.1.fail || read.1.rest == [] || read.1.rest == [NEWLINE]
    ensures InfoFrom(lib, read).None?
  {
    SkipSpaceRun([NEWLINE], []);
    assert [NEWLINE] + [] == [NEWLINE];
    assert SkipSpace(read.1.rest) == [] || read.1.fail;
    NoFieldAtEnd(lib, Ws(lib, read.1));
  }
}
