/** Byte ranges of a file, as a server that answers faithfully would return them. */
module Files {

  type Byte = b: int | 0 <= b < 256

  datatype Range = Range(offset: int, limit: int)

  function Clamp(x: int, size: nat): (r: nat)
    ensures r <= size
  {
    if x < 0 then 0 else if x > size then size else x
  }

  /** The bytes from `offset` on, at most `limit` of them, cut at the end of the file. */
  function Slice(file: seq<Byte>, offset: int, limit: int): (r: seq<Byte>)
    requires 0 <= offset && 0 <= limit
    ensures |r| <= limit
    ensures |r| == Clamp(offset + limit, |file|) - Clamp(offset, |file|)
  {
    file[Clamp(offset, |file|)..Clamp(offset + limit, |file|)]
  }

  /** A range split in two reads as its halves, one after the other. */
  lemma SliceSplits(file: seq<Byte>, offset: int, a: int, b: int)
    requires 0 <= offset && 0 <= a && 0 <= b
    ensures Slice(file, offset, a) + Slice(file, offset + a, b) == Slice(file, offset, a + b)
  {
    var s := Slice(file, offset, a) + Slice(file, offset + a, b);
    assert |s| == |Slice(file, offset, a + b)|;
  }

  /** A short answer means that the file ends there, so asking for more gives no more. */
  lemma ShortSliceIsAll(file: seq<Byte>, offset: int, limit: int, more: int)
    requires 0 <= offset && 0 <= limit <= more && |Slice(file, offset, limit)| < limit
    ensures Slice(file, offset, more) == Slice(file, offset, limit)
  {
  }

  // ---------- numbering the byte strings ----------

  /** Bijective base 256: an injective function on byte strings, as digests are assumed to be. */
  function Code(bytes: seq<Byte>): nat {
    if bytes == [] then 0 else 1 + bytes[0] + 256 * Code(bytes[1..])
  }

  lemma {:induction false} CodeIsInjective(a: seq<Byte>, b: seq<Byte>)
    requires Code(a) == Code(b)
    ensures a == b
  {
    if a != [] && b != [] {
      assert Code(a[1..]) == Code(b[1..]) && a[0] == b[0];
      CodeIsInjective(a[1..], b[1..]);
      assert a == [a[0]] + a[1..] && b == [b[0]] + b[1..];
    }
  }
}
