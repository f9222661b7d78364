/**
  Text streams as the runtime uses them: decimal printing with `operator<<`, and
  the formatted and unformatted reads of an `std::ifstream`.

  A stream is the bytes not yet read together with its eofbit and failbit.  The
  standard libraries differ on `std::ws` at the end of a file, so every result
  about the runtime is stated for both behaviours.
 */
module Streams {
  type Byte = bv8

  /** One more than the largest `uint64_t`. */
  const WORD: nat := 0x1_0000_0000_0000_0000

  const NEWLINE: Byte := 10
  const PLUS: Byte := 43
  const MINUS: Byte := 45
  const ZERO: Byte := 48

  datatype Stream = Stream(rest: seq<Byte>, eof: bool, fail: bool) {
    predicate Good() { !eof && !fail }
  }

  /** Whether `std::ws` builds a sentry, and so fails on a stream already at its end (ISO C++), or only skips. */
  datatype Library = SentryInWs | PlainWs

  function Open(file: seq<Byte>): Stream {
    Stream(file, false, false)
  }

  predicate IsSpace(c: Byte) {
    c == 32 || (9 <= c && c <= 13)
  }

  predicate IsDigit(c: Byte) {
    48 <= c && c <= 57
  }

  // ----- decimal numbers -----

  function Digit(d: nat): (c: Byte)
    requires d < 10
    ensures IsDigit(c) && !IsSpace(c) && DigitValue(c) == d
  {
    if d == 0 then 48 else if d == 1 then 49 else if d == 2 then 50 else if d == 3 then 51 else if d == 4 then 52
    else if d == 5 then 53 else if d == 6 then 54 else if d == 7 then 55 else if d == 8 then 56 else 57
  }

  function DigitValue(c: Byte): (d: nat)
    ensures d < 10
    ensures IsDigit(c) && c != ZERO ==> d > 0
  {
    if c == 49 then 1 else if c == 50 then 2 else if c == 51 then 3 else if c == 52 then 4
    else if c == 53 then 5 else if c == 54 then 6 else if c == 55 then 7 else if c == 56 then 8
    else if c == 57 then 9 else 0
  }

  /** The digits of ASCII. */
  lemma DigitsAreAscii(d: nat, c: Byte)
    requires d < 10 && IsDigit(c)
    ensures Digit(d) as int == 48 + d && DigitValue(c) == c as int - 48
  {
  }

  predicate AllDigits(s: seq<Byte>) {
    forall i :: 0 <= i < |s| ==> IsDigit(s[i])
  }

  /** What `file << n` writes for an unsigned number. */
  function Decimal(n: nat): (s: seq<Byte>)
    ensures AllDigits(s) && |s| > 0
    ensures n > 0 ==> s[0] != ZERO
  {
    if n < 10 then [Digit(n)] else Decimal(n / 10) + [Digit(n % 10)]
  }

  /** What `file << n` writes for a signed number. */
  function SignedDecimal(n: int): seq<Byte> {
    if n < 0 then [MINUS] + Decimal(-n) else Decimal(n)
  }

  /** The number a string of digits stands for. */
  function Value(s: seq<Byte>): nat {
    if s == [] then 0 else 10 * Value(s[..|s| - 1]) + DigitValue(s[|s| - 1])
  }

  lemma {:induction false} ValueOfDecimal(n: nat)
    ensures Value(Decimal(n)) == n
  {
    if n < 10 {
      assert Decimal(n)[..0] == [];
    } else {
      ValueOfDecimal(n / 10);
      assert Decimal(n)[..|Decimal(n)| - 1] == Decimal(n / 10);
    }
  }

  /** A number cut short reads as a smaller number, and never as zero. */
  lemma {:induction false} ValueOfPrefix(n: nat, k: nat)
    requires 0 < k <= |Decimal(n)| && n > 0
    ensures 0 < Value(Decimal(n)[..k]) <= n
  {
    ValueOfDecimal(n);
    var s := Decimal(n);
    if k == |s| {
      assert s[..k] == s;
    } else {
      assert s[..k] == Decimal(n / 10)[..k];
      ValueOfPrefix(n / 10, k);
    }
  }

  // ----- scanning -----

  function SkipSpace(s: seq<Byte>): (r: seq<Byte>)
    ensures |r| <= |s|
    ensures r != [] ==> !IsSpace(r[0])
  {
    if s != [] && IsSpace(s[0]) then SkipSpace(s[1..]) else s
  }

  function WordLength(s: seq<Byte>): (n: nat)
    ensures n <= |s|
  {
    if s != [] && !IsSpace(s[0]) then 1 + WordLength(s[1..]) else 0
  }

  function DigitsLength(s: seq<Byte>): (n: nat)
    ensures n <= |s| && AllDigits(s[..n])
    ensures n < |s| ==> !IsDigit(s[n])
  {
    if s != [] && IsDigit(s[0]) then 1 + DigitsLength(s[1..]) else 0
  }

  /** The sentry of a formatted read: fails unless the stream is good, then skips white space. */
  function Sentry(s: Stream): (t: Stream)
    ensures !t.fail ==> t.rest != []
  {
    if !s.Good() then s.(fail := true)
    else
      var r := SkipSpace(s.rest);
      if r == [] then Stream([], true, true) else s.(rest := r)
  }

  /** `file >> std::ws` */
  function Ws(lib: Library, s: Stream): Stream {
    if lib.SentryInWs? && !s.Good() then s.(fail := true)
    else
      var r := SkipSpace(s.rest);
      Stream(r, s.eof || r == [], s.fail)
  }

  /** `file >> str` */
  function ReadWord(s: Stream): (seq<Byte>, Stream) {
    var t := Sentry(s);
    if t.fail then ([], t)
    else
      var n := WordLength(t.rest);
      (t.rest[..n], Stream(t.rest[n..], n == |t.rest|, false))
  }

  predicate IsSign(c: Byte) {
    c == PLUS || c == MINUS
  }

  /** The sign, the magnitude and the stream after reading as many digits as there are. */
  function ReadMagnitude(s: Stream): (bool, nat, Stream) {
    var t := Sentry(s);
    if t.fail then (false, 0, t) else ScanMagnitude(t.rest)
  }

  function ScanMagnitude(s: seq<Byte>): (bool, nat, Stream)
    requires s != []
  {
    var body := if IsSign(s[0]) then s[1..] else s;
    var n := DigitsLength(body);
    (s[0] == MINUS, Value(body[..n]), Stream(body[n..], n == |body|, n == 0))
  }

  function ToUnsigned(read: (bool, nat, Stream)): (nat, Stream) {
    var (negative, m, t) := read;
    if t.fail then (0, t)
    else if m >= WORD then (WORD - 1, t.(fail := true))
    else (if negative then (WORD - m) % WORD else m, t)
  }

  /** `file >> u` for a `uint64_t`: a minus sign negates modulo 2^64, a magnitude out of range fails. */
  function ReadUnsigned(s: Stream): (nat, Stream) {
    ToUnsigned(ReadMagnitude(s))
  }

  /** `file >> i` for an `int64_t`. */
  function ReadSigned(s: Stream): (int, Stream) {
    var (negative, m, t) := ReadMagnitude(s);
    if t.fail then (0, t)
    else if negative then
      if m > WORD / 2 then (-(WORD as int / 2), t.(fail := true)) else (0 - m, t)
    else
      if m >= WORD / 2 then (WORD / 2 - 1, t.(fail := true)) else (m, t)
  }

  /** `file.read(&c, 1)` repeated `n` times, stopping at the first failure. */
  function ReadBytes(s: Stream, n: nat): (seq<Byte>, Stream)
    decreases n
  {
    if n == 0 then ([], s)
    else if !s.Good() then ([], s.(fail := true))
    else if s.rest == [] then ([], Stream([], true, true))
    else
      var (bytes, t) := ReadBytes(s.(rest := s.rest[1..]), n - 1);
      ([s.rest[0]] + bytes, t)
  }

  // ----- what the reads do on text of a known shape -----

  lemma PrefixOfConcat(a: seq<Byte>, b: seq<Byte>, k: nat)
    requires k <= |a| + |b|
    ensures (a + b)[..k] == if k <= |a| then a[..k] else a + b[..k - |a|]
  {
  }

  lemma {:induction false} SkipSpaceRun(spaces: seq<Byte>, tail: seq<Byte>)
    requires forall i :: 0 <= i < |spaces| ==> IsSpace(spaces[i])
    ensures SkipSpace(spaces + tail) == SkipSpace(tail)
  {
    if spaces == [] {
      assert spaces + tail == tail;
    } else {
      assert (spaces + tail)[1..] == spaces[1..] + tail;
      SkipSpaceRun(spaces[1..], tail);
    }
  }

  lemma {:induction false} DigitsLengthOf(digits: seq<Byte>, tail: seq<Byte>)
    requires AllDigits(digits)
    requires tail != [] ==> !IsDigit(tail[0])
    ensures DigitsLength(digits + tail) == |digits|
    ensures (digits + tail)[..|digits|] == digits && (digits + tail)[|digits|..] == tail
  {
    if digits != [] {
      assert (digits + tail)[1..] == digits[1..] + tail;
      DigitsLengthOf(digits[1..], tail);
    }
  }

  lemma DigitIsPlain(c: Byte)
    requires IsDigit(c)
    ensures !IsSpace(c) && !IsSign(c)
  {
  }

  /** Reading a run of digits yields its value, with eofbit exactly when nothing follows. */
  lemma ReadDigits(digits: seq<Byte>, tail: seq<Byte>)
    requires AllDigits(digits) && digits != []
    requires tail != [] ==> !IsDigit(tail[0])
    ensures ReadMagnitude(Open(digits + tail)) == (false, Value(digits), Stream(tail, tail == [], false))
  {
    var all := digits + tail;
    DigitsLengthOf(digits, tail);
    assert all[0] == digits[0];
    DigitIsPlain(all[0]);
    assert Sentry(Open(all)) == Open(all);
  }

  lemma ReadDecimal(n: nat, tail: seq<Byte>)
    requires n < WORD
    requires tail != [] ==> !IsDigit(tail[0])
    ensures ReadUnsigned(Open(Decimal(n) + tail)) == (n, Stream(tail, tail == [], false))
  {
    ReadDigits(Decimal(n), tail);
    ValueOfDecimal(n);
  }

  lemma {:induction false} ReadBytesOf(s: Stream, n: nat)
    requires s.Good() && n <= |s.rest|
    ensures ReadBytes(s, n) == (s.rest[..n], s.(rest := s.rest[n..]))
    decreases n
  {
    if n > 0 {
      var t := s.(rest := s.rest[1..]);
      ReadBytesOf(t, n - 1);
      assert t.rest[n - 1..] == s.rest[n..];
      assert [s.rest[0]] + t.rest[..n - 1] == s.rest[..n];
    } else {
      assert s.rest[0..] == s.rest;
    }
  }

  lemma {:induction false} ReadBytesFails(s: Stream, n: nat)
    requires n > |s.rest| || (n > 0 && !s.Good())
    ensures ReadBytes(s, n).1.fail
    decreases n
  {
    if s.Good() && s.rest != [] {
      ReadBytesFails(s.(rest := s.rest[1..]), n - 1);
    }
  }
}
