/**
  What the runtime takes for a record or an info file, said as a grammar, and that the validator and
  the two readers take exactly that.
 */
module Grammar {
  import opened Streams
  import opened Records
  import opened Directory

  // ----- numbers between white space -----

  predicate AllSpace(s: seq<Byte>) {
    forall i :: 0 <= i < |s| ==> IsSpace(s[i])
  }

  predicate StartsPlain(s: seq<Byte>) {
    s == [] || !IsSpace(s[0])
  }

  function Digits(num: seq<Byte>): seq<Byte> {
    if num != [] && IsSign(num[0]) then num[1..] else num
  }

  /** Digits, perhaps behind a sign. */
  predicate Numeral(num: seq<Byte>) {
    Digits(num) != [] && AllDigits(Digits(num))
  }

  /** A numeral in range for a `uint64_t`, with the value `operator>>` gives it: a minus sign negates it modulo 2^64. */
  predicate Unsigned(num: seq<Byte>, n: nat) {
    && Numeral(num) && Value(Digits(num)) < WORD
    && n == if num[0] == MINUS then (WORD - Value(Digits(num))) % WORD else Value(Digits(num))
  }

  /** The same for an `int64_t`. */
  predicate Signed(num: seq<Byte>, n: int) {
    Numeral(num) && -(WORD as int / 2) <= n < WORD / 2 && n == if num[0] == MINUS then 0 - Value(Digits(num)) else Value(Digits(num))
  }

  /** `num` stands first in `text`, with white space on both sides; the rest is `rest`. */
  predicate Between(lib: Library, text: seq<Byte>, front: seq<Byte>, num: seq<Byte>, back: seq<Byte>, rest: seq<Byte>) {
    && text == front + (num + (back + rest)) && AllSpace(front) && AllSpace(back) && StartsPlain(rest)
    && (back == [] && rest != [] ==> !IsDigit(rest[0]))
    && (back == [] && rest == [] ==> lib.PlainWs?)
  }

  /** `text` is the number `n`, with white space on both sides, and `rest`. */
  ghost predicate Spells(lib: Library, text: seq<Byte>, n: nat, rest: seq<Byte>) {
    exists front, num, back :: Between(lib, text, front, num, back, rest) && Unsigned(num, n)
  }

  ghost predicate SpellsSigned(lib: Library, text: seq<Byte>, n: int, rest: seq<Byte>) {
    exists front, num, back :: Between(lib, text, front, num, back, rest) && Signed(num, n)
  }

  // ----- files -----

  /** The word "alias", white space, and the kind of the record. */
  ghost predicate Worded(lib: Library, file: File, alias: nat, rest: seq<Byte>) {
    exists front, t ::
      file == front + (ALIAS + t) && AllSpace(front) && t != [] && IsSpace(t[0]) && Spells(lib, t, alias, rest)
  }

  /** The two sizes and the separator. */
  ghost predicate Sized(lib: Library, text: seq<Byte>, sizeBits: nat, numElements: nat, rest: seq<Byte>) {
    (rest == [] ==> lib.PlainWs?) && exists t :: Spells(lib, text, sizeBits, t) && Spells(lib, t, numElements, rest)
  }

  ghost predicate Headed(lib: Library, file: File, alias: nat, sizeBits: nat, numElements: nat, rest: seq<Byte>) {
    exists t :: Worded(lib, file, alias, t) && Sized(lib, t, sizeBits, numElements, rest)
  }

  /** The body of a record: a number up to the end of the file, or bytes and then white space up to the end. */
  ghost predicate BodyText(lib: Library, alias: nat, sizeBits: nat, numElements: nat, rest: seq<Byte>) {
    if alias != 0 then exists n :: Spells(lib, rest, n, [])
    else BytesAndSpace(rest, BytesFor(TotalBits(sizeBits, numElements)))
  }

  predicate BytesAndSpace(rest: seq<Byte>, count: nat) {
    count <= |rest| && AllSpace(rest[count..])
  }

  ghost predicate RecordText(lib: Library, file: File) {
    exists alias, sizeBits, numElements, rest ::
      Headed(lib, file, alias, sizeBits, numElements, rest) && BodyText(lib, alias, sizeBits, numElements, rest)
  }

  ghost predicate InfoText(lib: Library, file: File, labelNumber: int, count: nat) {
    exists t, rest :: SpellsSigned(lib, file, labelNumber, t) && Spells(lib, t, count, rest)
  }

  // ----- white space -----

  lemma SpaceCons(c: Byte, s: seq<Byte>)
    requires IsSpace(c) && AllSpace(s)
    ensures AllSpace([c] + s)
  {
  }

  lemma {:induction false} SpaceInFront(s: seq<Byte>) returns (front: seq<Byte>)
    ensures s == front + SkipSpace(s) && AllSpace(front)
  {
    if s != [] && IsSpace(s[0]) {
      var rest := SpaceInFront(s[1..]);
      front := [s[0]] + rest;
      assert s == [s[0]] + s[1..] == front + SkipSpace(s[1..]);
      assert SkipSpace(s) == SkipSpace(s[1..]);
      SpaceCons(s[0], rest);
    } else {
      front := [];
    }
  }

  lemma SkipFront(front: seq<Byte>, s: seq<Byte>)
    requires AllSpace(front) && StartsPlain(s)
    ensures SkipSpace(front + s) == s
  {
    SkipSpaceRun(front, s);
  }

  // ----- numbers -----

  lemma ScanOf(num: seq<Byte>, tail: seq<Byte>)
    requires Numeral(num) && (tail != [] ==> !IsDigit(tail[0]))
    ensures ScanMagnitude(num + tail) == (num[0] == MINUS, Value(Digits(num)), Stream(tail, tail == [], false))
  {
    var s := num + tail;
    DigitsLengthOf(Digits(num), tail);
    if IsSign(num[0]) {
      assert s[1..] == Digits(num) + tail;
    } else {
      DigitIsPlain(num[0]);
      assert s == Digits(num) + tail;
    }
  }

  lemma NumeralStartsPlain(num: seq<Byte>, tail: seq<Byte>)
    requires Numeral(num)
    ensures num + tail != [] && StartsPlain(num + tail)
  {
    if !IsSign(num[0]) { DigitIsPlain(num[0]); }
  }

  lemma SentryOf(front: seq<Byte>, s: seq<Byte>)
    requires AllSpace(front) && StartsPlain(s) && s != []
    ensures Sentry(Open(front + s)) == Open(s)
  {
    SkipFront(front, s);
  }

  /** Reading a numeral, whatever white space there is in front of it. */
  lemma MagnitudeOf(front: seq<Byte>, num: seq<Byte>, tail: seq<Byte>)
    requires AllSpace(front) && Numeral(num) && (tail != [] ==> !IsDigit(tail[0]))
    ensures ReadMagnitude(Open(front + (num + tail))) == (num[0] == MINUS, Value(Digits(num)), Stream(tail, tail == [], false))
  {
    NumeralStartsPlain(num, tail);
    SentryOf(front, num + tail);
    ScanOf(num, tail);
  }

  /** Where digits are found, there is a numeral. */
  lemma ScanFrom(s: seq<Byte>) returns (num: seq<Byte>, tail: seq<Byte>)
    requires s != [] && !ScanMagnitude(s).2.fail
    ensures s == num + tail && Numeral(num) && (tail != [] ==> !IsDigit(tail[0]))
  {
    var sign := if IsSign(s[0]) then 1 else 0;
    var body := s[sign..];
    assert body == if IsSign(s[0]) then s[1..] else s;
    var n := DigitsLength(body);
    num, tail := s[..sign + n], s[sign + n..];
    assert body[..n] == num[sign..] && body[n..] == tail;
    if sign == 0 {
      assert num[0..] == num;
      DigitIsPlain(num[0]);
    }
    assert Digits(num) == body[..n];
  }

  /** Where a number is read, there is a numeral. */
  lemma MagnitudeFrom(text: seq<Byte>) returns (front: seq<Byte>, num: seq<Byte>, tail: seq<Byte>)
    requires !ReadMagnitude(Open(text)).2.fail
    ensures text == front + (num + tail) && AllSpace(front) && Numeral(num) && (tail != [] ==> !IsDigit(tail[0]))
  {
    front := SpaceInFront(text);
    num, tail := ScanFrom(SkipSpace(text));
  }

  /** The stream with `rest` to come, after white space has been skipped. */
  function Ahead(rest: seq<Byte>): Stream {
    Stream(rest, rest == [], false)
  }

  /** Skipping white space behind a number. */
  lemma WsBehind(lib: Library, back: seq<Byte>, rest: seq<Byte>)
    requires AllSpace(back) && StartsPlain(rest) && (back == [] && rest == [] ==> lib.PlainWs?)
    ensures Ws(lib, Ahead(back + rest)) == Ahead(rest)
  {
    SkipFront(back, rest);
  }

  lemma WsFrom(lib: Library, tail: seq<Byte>) returns (back: seq<Byte>)
    requires !Ws(lib, Ahead(tail)).fail
    ensures tail == back + SkipSpace(tail) && AllSpace(back) && Ws(lib, Ahead(tail)) == Ahead(SkipSpace(tail))
    ensures tail == [] ==> lib.PlainWs?
  {
    back := SpaceInFront(tail);
  }

  // ----- fields -----

  lemma UnsignedOf(front: seq<Byte>, num: seq<Byte>, tail: seq<Byte>, n: nat)
    requires AllSpace(front) && Unsigned(num, n) && (tail != [] ==> !IsDigit(tail[0]))
    ensures ReadUnsigned(Open(front + (num + tail))) == (n, Ahead(tail))
  {
    MagnitudeOf(front, num, tail);
  }

  lemma UnsignedFrom(text: seq<Byte>) returns (front: seq<Byte>, num: seq<Byte>, tail: seq<Byte>)
    requires !ReadUnsigned(Open(text)).1.fail
    ensures text == front + (num + tail) && AllSpace(front) && (tail != [] ==> !IsDigit(tail[0]))
    ensures Unsigned(num, ReadUnsigned(Open(text)).0) && ReadUnsigned(Open(text)).1 == Ahead(tail)
  {
    front, num, tail := MagnitudeFrom(text);
    MagnitudeOf(front, num, tail);
  }

  lemma SignedOf(front: seq<Byte>, num: seq<Byte>, tail: seq<Byte>, n: int)
    requires AllSpace(front) && Signed(num, n) && (tail != [] ==> !IsDigit(tail[0]))
    ensures ReadSigned(Open(front + (num + tail))) == (n, Ahead(tail))
  {
    MagnitudeOf(front, num, tail);
  }

  lemma SignedFrom(text: seq<Byte>) returns (front: seq<Byte>, num: seq<Byte>, tail: seq<Byte>)
    requires !ReadSigned(Open(text)).1.fail
    ensures text == front + (num + tail) && AllSpace(front) && (tail != [] ==> !IsDigit(tail[0]))
    ensures Signed(num, ReadSigned(Open(text)).0) && ReadSigned(Open(text)).1 == Ahead(tail)
  {
    front, num, tail := MagnitudeFrom(text);
    MagnitudeOf(front, num, tail);
  }

  /** What a numeral in front of `tail` has behind it. */
  lemma BackOf(lib: Library, text: seq<Byte>, front: seq<Byte>, num: seq<Byte>, back: seq<Byte>, rest: seq<Byte>)
    requires Between(lib, text, front, num, back, rest)
    ensures (back + rest != [] ==> !IsDigit((back + rest)[0])) && Ws(lib, Ahead(back + rest)) == Ahead(rest)
  {
    WsBehind(lib, back, rest);
  }

  lemma BackFrom(lib: Library, text: seq<Byte>, front: seq<Byte>, num: seq<Byte>, tail: seq<Byte>)
    returns (back: seq<Byte>, rest: seq<Byte>)
    requires text == front + (num + tail) && AllSpace(front) && (tail != [] ==> !IsDigit(tail[0]))
    requires !Ws(lib, Ahead(tail)).fail
    ensures Between(lib, text, front, num, back, rest) && Ws(lib, Ahead(tail)) == Ahead(rest)
  {
    back := WsFrom(lib, tail);
    rest := SkipSpace(tail);
  }

  lemma FieldFrom(lib: Library, text: seq<Byte>)
    requires ReadField(lib, Open(text)).Some?
    ensures var (n, s) := ReadField(lib, Open(text)).value;
            s == Ahead(s.rest) && Spells(lib, text, n, s.rest)
  {
    var read := ReadUnsigned(Open(text));
    assert read.1.fail ==> Ws(lib, read.1).fail;
    var front, num, tail := UnsignedFrom(text);
    var back, rest := BackFrom(lib, text, front, num, tail);
  }

  /** What is read as a number is a number, and the other way round. */
  lemma FieldExact(lib: Library, text: seq<Byte>, n: nat, rest: seq<Byte>)
    ensures ReadField(lib, Open(text)) == Some((n, Ahead(rest))) <==> Spells(lib, text, n, rest)
  {
    if Spells(lib, text, n, rest) {
      var front, num, back :| Between(lib, text, front, num, back, rest) && Unsigned(num, n);
      BackOf(lib, text, front, num, back, rest);
      UnsignedOf(front, num, back + rest, n);
    }
    if ReadField(lib, Open(text)).Some? { FieldFrom(lib, text); }
  }

  /** The label of an info file, and the white space behind it. */
  function ReadLabel(lib: Library, text: seq<Byte>): (int, Stream) {
    (ReadSigned(Open(text)).0, Ws(lib, ReadSigned(Open(text)).1))
  }

  lemma LabelExact(lib: Library, text: seq<Byte>, n: int, rest: seq<Byte>)
    ensures ReadLabel(lib, text) == (n, Ahead(rest)) <==> SpellsSigned(lib, text, n, rest)
  {
    if SpellsSigned(lib, text, n, rest) {
      var front, num, back :| Between(lib, text, front, num, back, rest) && Signed(num, n);
      BackOf(lib, text, front, num, back, rest);
      SignedOf(front, num, back + rest, n);
    }
    if !ReadLabel(lib, text).1.fail { LabelFrom(lib, text); }
  }

  lemma LabelFrom(lib: Library, text: seq<Byte>)
    requires !ReadLabel(lib, text).1.fail
    ensures var (n, s) := ReadLabel(lib, text);
            s == Ahead(s.rest) && SpellsSigned(lib, text, n, s.rest)
  {
    var read := ReadSigned(Open(text));
    assert read.1.fail ==> Ws(lib, read.1).fail;
    var front, num, tail := SignedFrom(text);
    var back, rest := BackFrom(lib, text, front, num, tail);
  }

  /** A number is read only while there is something to read. */
  lemma NoField(lib: Library, s: Stream)
    requires !s.Good()
    ensures ReadField(lib, s).None?
  {
  }

  // ----- headers -----

  /** The first word, read. */
  lemma WordExact(text: seq<Byte>, word: seq<Byte>, tail: seq<Byte>)
    requires word != [] && (forall i :: 0 <= i < |word| ==> !IsSpace(word[i]))
    ensures ReadWord(Open(text)) == (word, Ahead(tail)) <==>
            (exists front :: text == front + (word + tail) && AllSpace(front) && (tail != [] ==> IsSpace(tail[0])))
  {
    if front :| text == front + (word + tail) && AllSpace(front) && (tail != [] ==> IsSpace(tail[0])) {
      SentryOf(front, word + tail);
      WordOf(word, tail);
    }
    if ReadWord(Open(text)) == (word, Ahead(tail)) {
      var front := SpaceInFront(text);
      var s := SkipSpace(text);
      WordEnds(s);
      assert s == s[..WordLength(s)] + s[WordLength(s)..];
    }
  }

  lemma {:induction false} WordEnds(s: seq<Byte>)
    ensures WordLength(s) < |s| ==> IsSpace(s[WordLength(s)])
  {
    if s != [] && !IsSpace(s[0]) { WordEnds(s[1..]); }
  }

  /** The same of a stream that has been read up to `text`. */
  lemma FieldAhead(lib: Library, text: seq<Byte>, n: nat, rest: seq<Byte>)
    ensures ReadField(lib, Ahead(text)) == Some((n, Ahead(rest))) <==> Spells(lib, text, n, rest)
  {
    if text == [] {
      NoField(lib, Ahead(text));
    } else {
      FieldExact(lib, text, n, rest);
    }
  }

  lemma FieldAheadFrom(lib: Library, text: seq<Byte>)
    requires ReadField(lib, Ahead(text)).Some?
    ensures var (n, s) := ReadField(lib, Ahead(text)).value;
            s == Ahead(s.rest) && Spells(lib, text, n, s.rest) && StartsPlain(s.rest)
  {
    if text == [] {
      NoField(lib, Ahead(text));
    } else {
      FieldFrom(lib, text);
    }
  }

  /** Reading the first line is reading the word and then a number. */
  lemma PreambleIsField(lib: Library, file: File)
    ensures var (word, s) := ReadWord(Open(file));
            ReadPreamble(lib, Open(file)) == if word == ALIAS then ReadField(lib, s) else None
  {
  }

  lemma PreambleOf(lib: Library, file: File, alias: nat, rest: seq<Byte>)
    requires Worded(lib, file, alias, rest)
    ensures ReadPreamble(lib, Open(file)) == Some((alias, Ahead(rest)))
  {
    var front, t :| file == front + (ALIAS + t) && AllSpace(front) && t != [] && IsSpace(t[0]) && Spells(lib, t, alias, rest);
    WordExact(file, ALIAS, t);
    FieldAhead(lib, t, alias, rest);
    PreambleIsField(lib, file);
  }

  lemma PreambleExact(lib: Library, file: File, alias: nat, rest: seq<Byte>)
    ensures ReadPreamble(lib, Open(file)) == Some((alias, Ahead(rest))) <==> Worded(lib, file, alias, rest)
  {
    var (word, s) := ReadWord(Open(file));
    if Worded(lib, file, alias, rest) { PreambleOf(lib, file, alias, rest); }
    PreambleIsField(lib, file);
    if word == ALIAS && ReadField(lib, s) == Some((alias, Ahead(rest))) {
      WordIsAhead(file);
      WordExact(file, ALIAS, s.rest);
      FieldAhead(lib, s.rest, alias, rest);
      if s.rest == [] {
        NoField(lib, s);
        assert false;
      }
    }
  }

  lemma WordIsAhead(text: seq<Byte>)
    requires ReadWord(Open(text)).0 != []
    ensures ReadWord(Open(text)).1 == Ahead(ReadWord(Open(text)).1.rest)
  {
  }

  lemma PreambleFrom(lib: Library, file: File)
    requires ReadPreamble(lib, Open(file)).Some?
    ensures var s := ReadPreamble(lib, Open(file)).value.1; s == Ahead(s.rest)
  {
    PreambleIsField(lib, file);
    WordIsAhead(file);
    FieldAheadFrom(lib, ReadWord(Open(file)).1.rest);
  }

  /** The separator adds nothing behind white space that is skipped, unless the file ends there. */
  lemma CountAhead(lib: Library, text: seq<Byte>)
    ensures var count := ReadField(lib, Ahead(text));
            ReadCount(lib, Ahead(text)) ==
            if count.None? || (count.value.1.rest == [] && lib.SentryInWs?) then None else count
  {
    if ReadField(lib, Ahead(text)).Some? {
      FieldAheadFrom(lib, text);
      var rest := ReadField(lib, Ahead(text)).value.1.rest;
      assert SkipSpace(rest) == rest;
    }
  }

  lemma CountExact(lib: Library, text: seq<Byte>, n: nat, rest: seq<Byte>)
    ensures ReadCount(lib, Ahead(text)) == Some((n, Ahead(rest))) <==> Spells(lib, text, n, rest) && (rest == [] ==> lib.PlainWs?)
  {
    CountAhead(lib, text);
    FieldAhead(lib, text, n, rest);
  }

  lemma SizesOf(lib: Library, text: seq<Byte>, sizeBits: nat, numElements: nat, rest: seq<Byte>)
    requires Sized(lib, text, sizeBits, numElements, rest)
    ensures ReadSizes(lib, Ahead(text)) == Some((sizeBits, numElements, Ahead(rest)))
  {
    var t :| Spells(lib, text, sizeBits, t) && Spells(lib, t, numElements, rest);
    FieldAhead(lib, text, sizeBits, t);
    CountExact(lib, t, numElements, rest);
  }

  lemma SizesExact(lib: Library, text: seq<Byte>, sizeBits: nat, numElements: nat, rest: seq<Byte>)
    ensures ReadSizes(lib, Ahead(text)) == Some((sizeBits, numElements, Ahead(rest)))
            <==> Sized(lib, text, sizeBits, numElements, rest)
  {
    if Sized(lib, text, sizeBits, numElements, rest) { SizesOf(lib, text, sizeBits, numElements, rest); }
    if ReadSizes(lib, Ahead(text)) == Some((sizeBits, numElements, Ahead(rest))) {
      FieldAheadFrom(lib, text);
      CountExact(lib, ReadField(lib, Ahead(text)).value.1.rest, numElements, rest);
    }
  }

  lemma SizesFrom(lib: Library, text: seq<Byte>)
    requires ReadSizes(lib, Ahead(text)).Some?
    ensures var s := ReadSizes(lib, Ahead(text)).value.2; s == Ahead(s.rest) && StartsPlain(s.rest)
  {
    FieldAheadFrom(lib, text);
    var t := ReadField(lib, Ahead(text)).value.1.rest;
    CountAhead(lib, t);
    FieldAheadFrom(lib, t);
  }

  lemma HeaderOf(lib: Library, file: File, alias: nat, sizeBits: nat, numElements: nat, rest: seq<Byte>)
    requires Headed(lib, file, alias, sizeBits, numElements, rest)
    ensures ReadHeader(lib, file) == Parsed(alias, sizeBits, numElements, Ahead(rest))
  {
    var t :| Worded(lib, file, alias, t) && Sized(lib, t, sizeBits, numElements, rest);
    PreambleExact(lib, file, alias, t);
    SizesExact(lib, t, sizeBits, numElements, rest);
  }

  lemma HeaderExact(lib: Library, file: File, alias: nat, sizeBits: nat, numElements: nat, rest: seq<Byte>)
    ensures ReadHeader(lib, file) == Parsed(alias, sizeBits, numElements, Ahead(rest))
            <==> Headed(lib, file, alias, sizeBits, numElements, rest)
  {
    if Headed(lib, file, alias, sizeBits, numElements, rest) { HeaderOf(lib, file, alias, sizeBits, numElements, rest); }
    if ReadHeader(lib, file) == Parsed(alias, sizeBits, numElements, Ahead(rest)) {
      PreambleFrom(lib, file);
      var t := ReadPreamble(lib, Open(file)).value.1.rest;
      PreambleExact(lib, file, alias, t);
      SizesExact(lib, t, sizeBits, numElements, rest);
    }
  }

  lemma HeaderFromFile(lib: Library, file: File)
    requires ReadHeader(lib, file).Parsed?
    ensures var h := ReadHeader(lib, file);
            && h.body == Ahead(h.body.rest) && StartsPlain(h.body.rest)
            && Headed(lib, file, h.alias, h.sizeBits, h.numElements, h.body.rest) && (h.body.rest == [] ==> lib.PlainWs?)
  {
    PreambleFrom(lib, file);
    var t := ReadPreamble(lib, Open(file)).value.1.rest;
    SizesFrom(lib, t);
    var h := ReadHeader(lib, file);
    HeaderExact(lib, file, h.alias, h.sizeBits, h.numElements, h.body.rest);
    SizesExact(lib, t, h.sizeBits, h.numElements, h.body.rest);
  }

  // ----- bodies -----

  lemma OnlySpace(s: seq<Byte>)
    ensures SkipSpace(s) == [] <==> AllSpace(s)
  {
    var front := SpaceInFront(s);
    if AllSpace(s) {
      assert s + [] == s;
      SkipFront(s, []);
    }
  }

  /** The bytes of a body and what is behind them. */
  lemma BytesExact(lib: Library, rest: seq<Byte>, count: nat)
    requires StartsPlain(rest) && (rest == [] ==> lib.PlainWs?)
    ensures var taken := ReadBody(lib, Ahead(rest), count);
            && (taken.Some? <==> count <= |rest|) && (taken.Some? ==> taken.value.0 == rest[..count])
            && (taken.Some? && taken.value.1.eof <==> BytesAndSpace(rest, count))
  {
    if count > |rest| {
      ReadBodyFails(lib, Ahead(rest), count);
    } else if count == 0 {
      assert rest[0..] == rest && rest[..0] == [];
      OnlySpace(rest);
    } else {
      ReadBytesOf(Ahead(rest), count);
      OnlySpace(rest[count..]);
    }
  }

  lemma NumberBody(lib: Library, rest: seq<Byte>)
    ensures var target := ReadField(lib, Ahead(rest));
            target.Some? && target.value.1.eof <==> exists n :: Spells(lib, rest, n, [])
  {
    if n :| Spells(lib, rest, n, []) { FieldAhead(lib, rest, n, []); }
    if ReadField(lib, Ahead(rest)).Some? { FieldAheadFrom(lib, rest); }
  }

  // ----- the validator and the readers -----

  lemma ParsedBody(lib: Library, file: File)
    requires ReadHeader(lib, file).Parsed?
    ensures var h := ReadHeader(lib, file);
            RecordValid(lib, file) <==> BodyText(lib, h.alias, h.sizeBits, h.numElements, h.body.rest)
  {
    HeaderFromFile(lib, file);
    var h := ReadHeader(lib, file);
    if h.alias != 0 {
      NumberBody(lib, h.body.rest);
    } else {
      BytesExact(lib, h.body.rest, BytesFor(TotalBits(h.sizeBits, h.numElements)));
    }
  }

  /** The validator takes a record file exactly when it is the text of a record. */
  lemma RecordExact(lib: Library, file: File)
    ensures RecordValid(lib, file) <==> RecordText(lib, file)
  {
    if alias, sizeBits, numElements, rest :|
      Headed(lib, file, alias, sizeBits, numElements, rest) && BodyText(lib, alias, sizeBits, numElements, rest)
    {
      HeaderExact(lib, file, alias, sizeBits, numElements, rest);
      ParsedBody(lib, file);
    }
    if RecordValid(lib, file) {
      ParsedBody(lib, file);
      HeaderFromFile(lib, file);
    }
  }

  ghost predicate AliasText(lib: Library, file: File, n: nat) {
    exists sizeBits, numElements, rest, end :: Headed(lib, file, 1, sizeBits, numElements, rest) && Spells(lib, rest, n, end)
  }

  lemma AliasOf(lib: Library, file: File, n: nat, sizeBits: nat, numElements: nat, rest: seq<Byte>, end: seq<Byte>)
    requires Headed(lib, file, 1, sizeBits, numElements, rest) && Spells(lib, rest, n, end)
    ensures ReadAlias(lib, file) == Some(n)
  {
    HeaderExact(lib, file, 1, sizeBits, numElements, rest);
    FieldAhead(lib, rest, n, end);
  }

  lemma AliasFrom(lib: Library, file: File)
    requires ReadAlias(lib, file).Some?
    ensures AliasText(lib, file, ReadAlias(lib, file).value)
  {
    HeaderFromFile(lib, file);
    FieldAheadFrom(lib, ReadHeader(lib, file).body.rest);
  }

  /** The alias reader gets `n` exactly from the header of an alias record with the number behind it. */
  lemma AliasExact(lib: Library, file: File, n: nat)
    ensures ReadAlias(lib, file) == Some(n) <==> AliasText(lib, file, n)
  {
    if AliasText(lib, file, n) {
      var sizeBits, numElements, rest, end :|
        Headed(lib, file, 1, sizeBits, numElements, rest) && Spells(lib, rest, n, end);
      AliasOf(lib, file, n, sizeBits, numElements, rest, end);
    }
    if ReadAlias(lib, file) == Some(n) { AliasFrom(lib, file); }
  }

  ghost predicate PointerText(lib: Library, file: File, body: seq<Byte>) {
    exists sizeBits, numElements, rest :: Headed(lib, file, 0, sizeBits, numElements, rest) && body <= rest
  }

  lemma PointerOf(lib: Library, sizeBits: nat, numElements: nat, file: File, body: seq<Byte>, s: nat, c: nat, rest: seq<Byte>)
    requires Headed(lib, file, 0, s, c, rest) && body <= rest && |body| == BytesFor(TotalBits(sizeBits, numElements))
    ensures ReadPointer(lib, sizeBits, numElements, file) == Some(body)
  {
    HeaderExact(lib, file, 0, s, c, rest);
    HeaderFromFile(lib, file);
    PointerTakes(lib, sizeBits, numElements, file, |body|);
    BytesTaken(lib, rest, body);
  }

  lemma BytesTaken(lib: Library, rest: seq<Byte>, body: seq<Byte>)
    requires StartsPlain(rest) && (rest == [] ==> lib.PlainWs?) && body <= rest
    ensures ReadBody(lib, Ahead(rest), |body|).Some? && ReadBody(lib, Ahead(rest), |body|).value.0 == body
  {
    BytesExact(lib, rest, |body|);
    assert rest[..|body|] == body;
  }

  lemma PointerTakes(lib: Library, sizeBits: nat, numElements: nat, file: File, count: nat)
    requires ReadHeader(lib, file).Parsed? && ReadHeader(lib, file).alias == 0 && count == BytesFor(TotalBits(sizeBits, numElements))
    ensures var body := ReadBody(lib, ReadHeader(lib, file).body, count);
            ReadPointer(lib, sizeBits, numElements, file) == if body.None? then None else Some(body.value.0)
  {
  }

  lemma PointerFrom(lib: Library, sizeBits: nat, numElements: nat, file: File)
    requires ReadPointer(lib, sizeBits, numElements, file).Some?
    ensures var body := ReadPointer(lib, sizeBits, numElements, file).value;
            |body| == BytesFor(TotalBits(sizeBits, numElements)) && PointerText(lib, file, body)
  {
    HeaderFromFile(lib, file);
    BytesExact(lib, ReadHeader(lib, file).body.rest, BytesFor(TotalBits(sizeBits, numElements)));
  }

  /** The pointer reader gets the bytes behind the header of a pointer record, as many as it is asked for. */
  lemma PointerExact(lib: Library, sizeBits: nat, numElements: nat, file: File, body: seq<Byte>)
    ensures ReadPointer(lib, sizeBits, numElements, file) == Some(body) <==>
            |body| == BytesFor(TotalBits(sizeBits, numElements)) && PointerText(lib, file, body)
  {
    if |body| == BytesFor(TotalBits(sizeBits, numElements)) && PointerText(lib, file, body) {
      var s, c, rest :| Headed(lib, file, 0, s, c, rest) && body <= rest;
      PointerOf(lib, sizeBits, numElements, file, body, s, c, rest);
    }
    if ReadPointer(lib, sizeBits, numElements, file) == Some(body) { PointerFrom(lib, sizeBits, numElements, file); }
  }

  /** Label and count are read from an info file exactly when they are its first two numbers. */
  lemma InfoExact(lib: Library, file: File, labelNumber: int, count: nat)
    ensures ReadInfo(lib, file) == Some((labelNumber, count)) <==> InfoText(lib, file, labelNumber, count)
  {
    if t, rest :| SpellsSigned(lib, file, labelNumber, t) && Spells(lib, t, count, rest) {
      LabelExact(lib, file, labelNumber, t);
      FieldAhead(lib, t, count, rest);
    }
    if ReadInfo(lib, file).Some? {
      LabelFrom(lib, file);
      FieldAheadFrom(lib, ReadLabel(lib, file).1.rest);
    }
  }

  // ----- behind a header the writer wrote -----

  lemma SpellsBehind(lib: Library, before: seq<Byte>, text: seq<Byte>, n: nat, rest: seq<Byte>)
    requires AllSpace(before) && Spells(lib, text, n, rest)
    ensures Spells(lib, before + text, n, rest)
  {
    var front, num, back :| Between(lib, text, front, num, back, rest) && Unsigned(num, n);
    assert before + text == (before + front) + (num + (back + rest));
    assert Between(lib, before + text, before + front, num, back, rest);
  }

  lemma SpellsSkipped(lib: Library, text: seq<Byte>, n: nat, rest: seq<Byte>)
    ensures Spells(lib, SkipSpace(text), n, rest) <==> Spells(lib, text, n, rest)
  {
    if Spells(lib, SkipSpace(text), n, rest) {
      var before := SpaceInFront(text);
      SpellsBehind(lib, before, SkipSpace(text), n, rest);
    }
    if Spells(lib, text, n, rest) {
      var front, num, back :| Between(lib, text, front, num, back, rest) && Unsigned(num, n);
      NumeralStartsPlain(num, back + rest);
      SkipFront(front, num + (back + rest));
      assert Between(lib, SkipSpace(text), [], num, back, rest);
    }
  }

  /** Whatever stands behind the header of an alias record: it passes exactly when it is one number up to the end. */
  lemma AliasTail(lib: Library, sizeBits: nat, numElements: nat, tail: seq<Byte>)
    requires sizeBits < WORD && numElements < WORD
    ensures RecordValid(lib, Header(1, sizeBits, numElements) + tail) <==> exists n :: Spells(lib, tail, n, [])
  {
    ReadHeaderOf(lib, 1, sizeBits, numElements, tail);
    var r := SkipSpace(tail);
    NumberBody(lib, r);
    if n :| Spells(lib, r, n, []) { SpellsSkipped(lib, tail, n, []); }
    if n :| Spells(lib, tail, n, []) { SpellsSkipped(lib, tail, n, []); }
  }

  /** And behind that of a pointer record: it passes exactly when it is as many bytes as announced, and then white space. */
  lemma PointerTail(lib: Library, sizeBits: nat, numElements: nat, tail: seq<Byte>)
    requires sizeBits < WORD && numElements < WORD
    ensures RecordValid(lib, Header(0, sizeBits, numElements) + tail) <==>
            BytesAndSpace(SkipSpace(tail), BytesFor(TotalBits(sizeBits, numElements))) && (SkipSpace(tail) == [] ==> lib.PlainWs?)
  {
    ReadHeaderOf(lib, 0, sizeBits, numElements, tail);
    if SkipSpace(tail) == [] ==> lib.PlainWs? {
      BytesExact(lib, SkipSpace(tail), BytesFor(TotalBits(sizeBits, numElements)));
    }
  }

  // ----- directories -----

  ghost predicate DirectoryText(lib: Library, dir: Dir, labelNumber: nat, count: nat) {
    && dir.info.Some? && InfoText(lib, dir.info.value, labelNumber, count) && count <= |dir.bodies|
    && forall i :: 0 <= i < count ==> RecordText(lib, dir.bodies[i])
  }

  /** The directories that validate, with their label and count: an info file, and record files as many as it announces. */
  lemma DirectoryExact(lib: Library, dir: Dir, labelNumber: nat, count: nat)
    ensures Accepted(lib, dir) == Some((labelNumber, count)) <==> DirectoryText(lib, dir, labelNumber, count)
  {
    if dir.info.Some? {
      InfoExact(lib, dir.info.value, labelNumber, count);
      FilesExact(lib, Check(lib), dir, count);
      if ReadInfo(lib, dir.info.value).Some? {
        VerdictExact(ReadInfo(lib, dir.info.value), Check(lib), dir, labelNumber, count);
      }
    }
  }

  lemma VerdictExact(info: Option<(int, nat)>, check: File -> bool, dir: Dir, labelNumber: nat, count: nat)
    ensures Verdict(info, check, dir) == Some((labelNumber, count)) <==>
            info == Some((labelNumber as int, count)) && AllPass(check, dir, count)
  {
  }

  lemma FilesExact(lib: Library, check: File -> bool, dir: Dir, count: nat)
    requires JudgesFiles(lib, check)
    ensures AllPass(check, dir, count) <==> count <= |dir.bodies| && forall i :: 0 <= i < count ==> RecordText(lib, dir.bodies[i])
  {
    forall i: nat | i < count && i < |dir.bodies| ensures Passes(check, dir, i) <==> RecordText(lib, dir.bodies[i]) {
      RecordExact(lib, dir.bodies[i]);
      assert check(dir.bodies[i]) == RecordValid(lib, dir.bodies[i]);
    }
    if AllPass(check, dir, count) && count > 0 {
      var last: nat := count - 1;
      assert Passes(check, dir, last);
    }
  }
}
