/** Bytes, and the little- and big-endian numbers the buffer and the decoder read and write. */
module Bytes {

  type Byte = b: int | 0 <= b < 256 witness 0

  function Pow256(k: nat): nat { if k == 0 then 1 else 256 * Pow256(k - 1) }

  /** The number whose little-endian bytes are `bytes`. */
  function LittleEndian(bytes: seq<Byte>): (n: nat)
    ensures n < Pow256(|bytes|)
  {
    if bytes == [] then 0 else bytes[0] + 256 * LittleEndian(bytes[1..])
  }

  /** The `k` little-endian bytes of `n`, as htole16, htole32 and memcpy lay them out. */
  function ToLittleEndian(n: nat, k: nat): (bytes: seq<Byte>)
    ensures |bytes| == k
  {
    if k == 0 then [] else [n % 256] + ToLittleEndian(n / 256, k - 1)
  }

  function BigEndian(bytes: seq<Byte>): (n: nat)
    ensures n < Pow256(|bytes|)
  {
    if bytes == [] then 0 else 256 * BigEndian(bytes[..|bytes| - 1]) + bytes[|bytes| - 1]
  }

  lemma {:induction false} LittleEndianRoundTrip(n: nat, k: nat)
    requires n < Pow256(k)
    ensures LittleEndian(ToLittleEndian(n, k)) == n
  {
    if k != 0 {
      LittleEndianRoundTrip(n / 256, k - 1);
      assert ToLittleEndian(n, k)[1..] == ToLittleEndian(n / 256, k - 1);
    }
  }

  /** The byte at place k counts 256^k. */
  lemma {:induction false} LittleEndianPlace(bytes: seq<Byte>, last: Byte)
    ensures LittleEndian(bytes + [last]) == LittleEndian(bytes) + Pow256(|bytes|) * last
  {
    if bytes == [] {
      assert [last][1..] == [] && LittleEndian([last]) == last;
      assert bytes + [last] == [last];
    } else {
      LittleEndianPlace(bytes[1..], last);
      assert (bytes + [last])[1..] == bytes[1..] + [last];
      assert Pow256(|bytes|) == 256 * Pow256(|bytes| - 1);
      assert 256 * (Pow256(|bytes| - 1) * last) == Pow256(|bytes|) * last;
    }
  }

  /** Reversing the bytes turns one reading into the other. */
  lemma {:induction false} BigEndianIsReversed(bytes: seq<Byte>)
    ensures BigEndian(bytes) == LittleEndian(Reverse(bytes))
    decreases |bytes|
  {
    if bytes != [] {
      BigEndianIsReversed(bytes[..|bytes| - 1]);
      assert Reverse(bytes)[1..] == Reverse(bytes[..|bytes| - 1]);
    }
  }

  function Reverse(bytes: seq<Byte>): (r: seq<Byte>)
    ensures |r| == |bytes| && forall i :: 0 <= i < |r| ==> r[i] == bytes[|bytes| - 1 - i]
  {
    seq(|bytes|, i requires 0 <= i < |bytes| => bytes[|bytes| - 1 - i])
  }

  function Concat(parts: seq<seq<Byte>>): seq<Byte> {
    if parts == [] then [] else parts[0] + Concat(parts[1..])
  }

  lemma {:induction false} ConcatSnoc(parts: seq<seq<Byte>>, last: seq<Byte>)
    ensures Concat(parts + [last]) == Concat(parts) + last
  {
    if parts == [] {
      assert parts + [last] == [last] && [last][1..] == [];
    } else {
      assert (parts + [last])[1..] == parts[1..] + [last];
      ConcatSnoc(parts[1..], last);
    }
  }
}
