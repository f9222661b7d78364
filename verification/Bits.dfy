/**
  Memory as bits, record bodies as bytes, and the byte loop that writes a body back.
 */
module Bits {
  import opened Streams
  import opened Records

  type BitString = seq<bool>

  /** Bit `k` of a byte, counting from the lowest. */
  predicate Bit(b: Byte, k: nat)
    requires k < 8
  {
    if k == 0 then b & 1 != 0 else if k == 1 then b & 2 != 0 else if k == 2 then b & 4 != 0
    else if k == 3 then b & 8 != 0 else if k == 4 then b & 16 != 0 else if k == 5 then b & 32 != 0
    else if k == 6 then b & 64 != 0 else b & 128 != 0
  }

  predicate BitAt(bytes: seq<Byte>, p: nat)
    requires p < 8 * |bytes|
  {
    Bit(bytes[p / 8], p % 8)
  }

  /** The first `n` bits of some bytes. */
  function Unpack(bytes: seq<Byte>, n: nat): (bits: BitString)
    requires n <= 8 * |bytes|
    ensures |bits| == n
  {
    seq(n, p requires 0 <= p < n => BitAt(bytes, p))
  }

  function PackByte(b: BitString): Byte {
    (if |b| > 0 && b[0] then 1 else 0) | (if |b| > 1 && b[1] then 2 else 0)
    | (if |b| > 2 && b[2] then 4 else 0) | (if |b| > 3 && b[3] then 8 else 0)
    | (if |b| > 4 && b[4] then 16 else 0) | (if |b| > 5 && b[5] then 32 else 0)
    | (if |b| > 6 && b[6] then 64 else 0) | (if |b| > 7 && b[7] then 128 else 0)
  }

  /** The bytes that hold some bits, the last byte filled up with zeros. */
  function Pack(bits: BitString): (bytes: seq<Byte>)
    ensures |bytes| == BytesFor(|bits|)
  {
    if bits == [] then [] else if |bits| <= 8 then [PackByte(bits)] else [PackByte(bits[..8])] + Pack(bits[8..])
  }

  lemma PackByteBit(b: BitString, k: nat)
    requires k < 8
    ensures Bit(PackByte(b), k) == (k < |b| && b[k])
  {
  }

  lemma {:induction false} PackBit(bits: BitString, p: nat)
    requires p < |bits|
    ensures BitAt(Pack(bits), p) == bits[p]
  {
    if |bits| <= 8 {
      PackByteBit(bits, p);
    } else if p < 8 {
      PackByteBit(bits[..8], p);
    } else {
      PackBit(bits[8..], p - 8);
      assert Pack(bits)[p / 8] == Pack(bits[8..])[(p - 8) / 8];
    }
  }

  lemma UnpackPack(bits: BitString)
    ensures Unpack(Pack(bits), |bits|) == bits
  {
    forall p | 0 <= p < |bits|
      ensures Unpack(Pack(bits), |bits|)[p] == bits[p]
    {
      PackBit(bits, p);
    }
  }

  /** The low `diff` bits of `c` over the other bits of `previous`. */
  function Merge(previous: Byte, c: Byte, diff: nat): Byte
    requires diff < 8
  {
    var mask: Byte := 255 << diff;
    (previous & mask) | (c & !mask)
  }

  /** All ones from bit `diff` upwards. */
  function HighOnes(diff: nat): Byte {
    if diff == 1 then 254 else if diff == 2 then 252 else if diff == 3 then 248 else if diff == 4 then 240
    else if diff == 5 then 224 else if diff == 6 then 192 else 128
  }

  lemma ShiftedOnes(diff: nat)
    requires 0 < diff < 8
    ensures (255 as Byte) << diff == HighOnes(diff)
  {
    if diff == 1 { } else if diff == 2 { } else if diff == 3 { } else if diff == 4 { }
    else if diff == 5 { } else if diff == 6 { } else { assert diff == 7; }
  }

  lemma MaskedBit(previous: Byte, c: Byte, diff: nat, k: nat)
    requires 0 < diff < 8 && k < 8
    ensures var mask := HighOnes(diff);
            Bit((previous & mask) | (c & !mask), k) == if k < diff then Bit(c, k) else Bit(previous, k)
  {
  }

  lemma MergedBit(previous: Byte, c: Byte, diff: nat, k: nat)
    requires 0 < diff < 8 && k < 8
    ensures Bit(Merge(previous, c, diff), k) == if k < diff then Bit(c, k) else Bit(previous, k)
  {
    ShiftedOnes(diff);
    MaskedBit(previous, c, diff, k);
  }

  /** `after` is `before` with its first `n` bits taken from `body`. */
  predicate Overwritten(before: seq<Byte>, body: seq<Byte>, n: nat, after: seq<Byte>)
    requires n <= 8 * |body|
  {
    |after| == |before| &&
    forall p :: 0 <= p < 8 * |after| ==> BitAt(after, p) == if p < n then BitAt(body, p) else BitAt(before, p)
  }

  function Min(a: nat, b: nat): nat {
    if a < b then a else b
  }

  /**
    The byte loop of `__acriilRestartReadPointerFromCheckpoint`; `ok` is false where it exits.
    The target is large enough, as its caller promises, and the 64-bit bit counter does not wrap.
   */
  method RestoreBits(source: Stream, totalBits: nat, data: array<Byte>) returns (ok: bool, s: Stream)
    requires totalBits + 8 <= WORD
    requires BytesFor(totalBits) <= data.Length
    modifies data
    ensures var (body, end) := ReadBytes(source, BytesFor(totalBits));
            ok == !(totalBits > 0 && end.fail) &&
            (ok ==> s == end && |body| == BytesFor(totalBits) && Overwritten(old(data[..]), body, totalBits, data[..]))
  {
    s := source;
    var i := 0;
    while i < totalBits
      invariant i % 8 == 0 && i <= 8 * BytesFor(totalBits)
      invariant i / 8 <= |source.rest| && (i > 0 ==> source.Good())
      invariant s == source.(rest := source.rest[i / 8..])
      invariant Overwritten(old(data[..]), source.rest, Min(i, totalBits), data[..])
    {
      if !s.Good() || s.rest == [] {
        ReadBytesFails(source, BytesFor(totalBits));
        return false, s;
      }
      var c := s.rest[0];
      ghost var before := data[..];
      data[i / 8] := if i + 8 <= totalBits then c else Merge(data[i / 8], c, totalBits - i);
      ByteWritten(old(data[..]), source.rest, before, data[..], i, totalBits);
      s := s.(rest := s.rest[1..]);
      i := i + 8;
    }
    ReadAllBytes(source, BytesFor(totalBits));
    ghost var body := source.rest[..BytesFor(totalBits)];
    assert forall p :: 0 <= p < totalBits ==> BitAt(body, p) == BitAt(source.rest, p);
    ok := true;
  }

  /** One step of the loop writes byte `i / 8`, up to the last bit to be restored. */
  lemma ByteWritten(first: seq<Byte>, text: seq<Byte>, before: seq<Byte>, after: seq<Byte>, i: nat, total: nat)
    requires i % 8 == 0 && i < total && i / 8 < |text| && i / 8 < |before|
    requires Overwritten(first, text, i, before)
    requires after == before[i / 8 := if i + 8 <= total then text[i / 8] else Merge(before[i / 8], text[i / 8], total - i)]
    ensures Overwritten(first, text, Min(i + 8, total), after)
  {
    forall p | 0 <= p < 8 * |after|
      ensures BitAt(after, p) == if p < Min(i + 8, total) then BitAt(text, p) else BitAt(first, p)
    {
      if p / 8 == i / 8 {
        assert p == i + p % 8;
        assert BitAt(before, p) == Bit(before[i / 8], p % 8) == BitAt(first, p);
        if i + 8 > total {
          MergedBit(before[i / 8], text[i / 8], total - i, p % 8);
        }
      } else {
        assert BitAt(after, p) == BitAt(before, p);
      }
    }
  }

  lemma ReadAllBytes(s: Stream, n: nat)
    requires n <= |s.rest| && (n > 0 ==> s.Good())
    ensures ReadBytes(s, n) == (s.rest[..n], s.(rest := s.rest[n..]))
  {
    if n > 0 {
      ReadBytesOf(s, n);
    } else {
      assert s.rest[0..] == s.rest;
    }
  }

  /** Restoring a body brings back the bits it holds, whatever was there before. */
  lemma RestoredBits(bits: BitString, body: seq<Byte>, before: seq<Byte>, after: seq<Byte>)
    requires |bits| <= 8 * |body| && |bits| <= 8 * |before|
    requires Unpack(body, |bits|) == bits
    requires Overwritten(before, body, |bits|, after)
    ensures Unpack(after, |bits|) == bits
    ensures forall p :: |bits| <= p < 8 * |after| ==> BitAt(after, p) == BitAt(before, p)
  {
    forall p | 0 <= p < |bits|
      ensures Unpack(after, |bits|)[p] == bits[p]
    {
      assert bits[p] == BitAt(body, p);
    }
  }
}
