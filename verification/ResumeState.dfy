/** The saved progress of a download (telegram/media.go): a bitmap of finished parts, in memory as bytes
    updated in place, on disk behind a 32-byte header. */
module ResumeState {
  import opened Files
  import opened Parts

  const MAX_PARTS: int := 0x100_0000
  const MAX_KEY: int := 1024
  const MAGIC: int := 0x444C5231
  const VERSION: int := 1

  // ---------- the bitmap ----------

  /** 1 << k. */
  function Mask(k: int): bv8
    requires 0 <= k < 8
  {
    if k == 0 then 1 else if k == 1 then 2 else if k == 2 then 4 else if k == 3 then 8
    else if k == 4 then 16 else if k == 5 then 32 else if k == 6 then 64 else 128
  }

  predicate Bit(bits: seq<bv8>, p: int)
    requires 0 <= p < 8 * |bits|
  {
    bits[p / 8] & Mask(p % 8) != 0
  }

  function WithBit(bits: seq<bv8>, p: int): seq<bv8>
    requires 0 <= p < 8 * |bits|
  {
    bits[p / 8 := bits[p / 8] | Mask(p % 8)]
  }

  lemma MasksAreApart(b: bv8, j: int, k: int)
    requires 0 <= j < 8 && 0 <= k < 8
    ensures (b | Mask(j)) & Mask(k) != 0 <==> (b & Mask(k) != 0 || j == k)
  {
  }

  lemma BitAfterSet(bits: seq<bv8>, p: int, q: int)
    requires 0 <= p < 8 * |bits| && 0 <= q < 8 * |bits|
    ensures Bit(WithBit(bits, p), q) <==> Bit(bits, q) || p == q
  {
    if p / 8 == q / 8 { MasksAreApart(bits[p / 8], p % 8, q % 8); }
  }

  function Marked(bits: seq<bv8>, total: int): (r: set<int>)
    requires 0 <= total <= 8 * |bits|
  {
    set p | 0 <= p < total && Bit(bits, p)
  }

  lemma MarkAdds(bits: seq<bv8>, p: int, total: int)
    requires 0 <= p < total <= 8 * |bits|
    ensures Marked(WithBit(bits, p), total) == Marked(bits, total) + {p}
  {
    forall q | 0 <= q < total ensures Bit(WithBit(bits, p), q) <==> Bit(bits, q) || q == p {
      BitAfterSet(bits, p, q);
    }
  }

  class Progress {
    const size: int
    const partSize: int
    const totalParts: int
    const locKey: seq<Byte>
    const bitmap: array<bv8>
    var dirty: bool

    ghost predicate Valid() {
      && 0 < size && 0 < partSize && totalParts == Count(size, partSize) <= MAX_PARTS
      && bitmap.Length == (totalParts + 7) / 8
    }

    ghost function Done(): set<int>
      requires Valid()
      reads bitmap
    {
      Marked(bitmap[..], totalParts)
    }

    constructor (size: int, partSize: int, locKey: seq<Byte>)
      requires 0 < size && 0 < partSize && Count(size, partSize) <= MAX_PARTS
      ensures Valid() && fresh(bitmap) && Done() == {} && !dirty
      ensures this.size == size && this.partSize == partSize && this.locKey == locKey
    {
      this.size, this.partSize, this.locKey := size, partSize, locKey;
      totalParts := Count(size, partSize);
      bitmap := new bv8[(Count(size, partSize) + 7) / 8](i => 0);
      dirty := false;
    }

    method Has(part: int) returns (r: bool)
      requires Valid()
      ensures r <==> part in Done()
    {
      if part < 0 || part >= totalParts { return false; }
      assert bitmap[..][part / 8] == bitmap[part / 8];
      r := bitmap[part / 8] & Mask(part % 8) != 0;
    }

    method Mark(part: int)
      requires Valid()
      modifies this`dirty, bitmap
      ensures Done() == old(Done()) + (if 0 <= part < totalParts then {part} else {})
      ensures dirty <==> old(dirty) || Done() != old(Done())
    {
      if part < 0 || part >= totalParts { return; }
      var added := SetBit(part);
      if added { dirty := true; }
    }

    method SetBit(part: int) returns (added: bool)
      requires Valid() && 0 <= part < totalParts
      modifies bitmap
      ensures Done() == old(Done()) + {part}
      ensures added <==> part !in old(Done())
    {
      var mask := Mask(part % 8);
      ghost var before := bitmap[..];
      assert Bit(before, part) <==> part in Done();
      added := bitmap[part / 8] & mask == 0;
      if added {
        bitmap[part / 8] := bitmap[part / 8] | mask;
        MarkAdds(before, part, totalParts);
      }
    }

    /** The bytes of the finished parts; the whole size exactly when every part is marked. */
    method CompletedBytes() returns (total: int)
      requires Valid()
      ensures total == Total(Done(), totalParts, size, partSize)
      ensures total == size <==> forall p | 0 <= p < totalParts :: p in Done()
    {
      total := 0;
      for p := 0 to totalParts
        invariant total == Total(Done(), p, size, partSize)
      {
        assert bitmap[..][p / 8] == bitmap[p / 8];
        if bitmap[p / 8] & Mask(p % 8) != 0 {
          var partLen := partSize;
          var remaining := size - p * partSize;
          if remaining < partLen { partLen := remaining; }
          total := total + partLen;
        }
      }
      TotalIsSizeIffAllDone(Done(), size, partSize);
    }
  }

  // ---------- the file format ----------

  /** k bytes, little-endian; higher digits are dropped. */
  function LittleEndian(n: nat, k: nat): (r: seq<Byte>)
    ensures |r| == k
  {
    if k == 0 then [] else [n % 256] + LittleEndian(n / 256, k - 1)
  }

  function FromLittleEndian(bytes: seq<Byte>): nat {
    if bytes == [] then 0 else bytes[0] + 256 * FromLittleEndian(bytes[1..])
  }

  function Range256(k: nat): nat {
    if k == 0 then 1 else 256 * Range256(k - 1)
  }

  lemma {:induction false} EndianRoundTrip(n: nat, k: nat)
    requires n < Range256(k)
    ensures FromLittleEndian(LittleEndian(n, k)) == n
  {
    if k > 0 {
      EndianRoundTrip(n / 256, k - 1);
      assert LittleEndian(n, k)[1..] == LittleEndian(n / 256, k - 1);
    }
  }

  function ToBytes(bits: seq<bv8>): seq<Byte> {
    seq(|bits|, i requires 0 <= i < |bits| => bits[i] as int)
  }

  function FromBytes(bytes: seq<Byte>): seq<bv8> {
    seq(|bytes|, i requires 0 <= i < |bytes| => bytes[i] as bv8)
  }

  /** What flush writes: a 32-byte header, the location key and the bitmap. */
  function Saved(size: nat, partSize: nat, total: nat, locKey: seq<Byte>, bits: seq<bv8>): seq<Byte> {
    LittleEndian(MAGIC, 4) + (LittleEndian(VERSION, 2) + ([0, 0] + (LittleEndian(size, 8) + (LittleEndian(partSize, 4)
      + (LittleEndian(total, 4) + (LittleEndian(|locKey|, 4) + ([0, 0, 0, 0] + (locKey + ToBytes(bits)))))))))
  }

  datatype LoadResult = Loaded(bits: seq<bv8>) | Rejected

  predicate ValidDimensions(size: int, partSize: int) {
    0 < size < 0x8000_0000_0000_0000 && 0 < partSize && Count(size, partSize) <= MAX_PARTS
  }

  /** loadResumeState, on the content of the file. */
  method Load(content: seq<Byte>, size: int, partSize: int, locKey: seq<Byte>) returns (r: LoadResult)
    ensures r == LoadFrom(content, size, partSize, locKey)
  {
    if !ValidDimensions(size, partSize) || |locKey| > MAX_KEY { return Rejected; }
    if |content| < 32 { return Rejected; }
    if FromLittleEndian(content[0..4]) != MAGIC { return Rejected; }
    if FromLittleEndian(content[4..6]) != VERSION { return Rejected; }
    var storedSize := FromLittleEndian(content[8..16]);
    var storedPartSize := FromLittleEndian(content[16..20]);
    var storedTotal := FromLittleEndian(content[20..24]);
    var keyLength := FromLittleEndian(content[24..28]);
    if storedSize != size || storedPartSize != partSize { return Rejected; }
    if storedTotal != Count(size, partSize) { return Rejected; }
    if keyLength != |locKey| { return Rejected; }
    if |content| < 32 + keyLength || content[32..32 + keyLength] != locKey { return Rejected; }
    var end := 32 + keyLength + (storedTotal + 7) / 8;
    if |content| < end { return Rejected; }
    return Loaded(FromBytes(content[32 + keyLength..end]));
  }

  function LoadFrom(content: seq<Byte>, size: int, partSize: int, locKey: seq<Byte>): (r: LoadResult)
    ensures r.Loaded? ==> ValidDimensions(size, partSize) && |r.bits| == (Count(size, partSize) + 7) / 8
  {
    if !ValidDimensions(size, partSize) || |locKey| > MAX_KEY || |content| < 32 then Rejected
    else if !HeaderHolds(content, size, partSize, Count(size, partSize), |locKey|) then Rejected
    else
      var start := 32 + |locKey|;
      var end := start + (Count(size, partSize) + 7) / 8;
      if |content| < end || content[32..start] != locKey then Rejected else Loaded(FromBytes(content[start..end]))
  }

  /** The numbers in the header, behind its magic and version. */
  predicate HeaderHolds(content: seq<Byte>, size: int, partSize: int, total: int, keyLength: int)
    requires |content| >= 32
  {
    && FromLittleEndian(content[0..4]) == MAGIC && FromLittleEndian(content[4..6]) == VERSION
    && FromLittleEndian(content[8..16]) == size && FromLittleEndian(content[16..20]) == partSize
    && FromLittleEndian(content[20..24]) == total && FromLittleEndian(content[24..28]) == keyLength
  }

  /** In a concatenation whose first piece ends at `i`, the next piece lies behind `i`. */
  lemma NextField(whole: seq<Byte>, i: nat, f: seq<Byte>, rest: seq<Byte>)
    requires i <= |whole| && whole[i..] == f + rest
    ensures i + |f| <= |whole| && whole[i..i + |f|] == f && whole[i + |f|..] == rest
  {
    assert whole[i..i + |f|] == whole[i..][..|f|];
    assert whole[i + |f|..] == whole[i..][|f|..];
  }

  function TailOf(partSize: nat, total: nat, locKey: seq<Byte>, bits: seq<bv8>): seq<Byte> {
    LittleEndian(partSize, 4)
      + (LittleEndian(total, 4) + (LittleEndian(|locKey|, 4) + ([0, 0, 0, 0] + (locKey + ToBytes(bits)))))
  }

  lemma HeadFields(size: nat, partSize: nat, total: nat, locKey: seq<Byte>, bits: seq<bv8>)
    ensures var c := Saved(size, partSize, total, locKey, bits);
      && |c| == 32 + |locKey| + |bits|
      && c[0..4] == LittleEndian(MAGIC, 4) && c[4..6] == LittleEndian(VERSION, 2) && c[8..16] == LittleEndian(size, 8)
      && c[16..] == TailOf(partSize, total, locKey, bits)
  {
    var c := Saved(size, partSize, total, locKey, bits);
    var t5 := TailOf(partSize, total, locKey, bits);
    var t4 := LittleEndian(size, 8) + t5;
    var t3: seq<Byte> := [0, 0] + t4;
    var t2 := LittleEndian(VERSION, 2) + t3;
    assert c[0..] == c == LittleEndian(MAGIC, 4) + t2;
    NextField(c, 0, LittleEndian(MAGIC, 4), t2);
    NextField(c, 4, LittleEndian(VERSION, 2), t3);
    NextField(c, 6, [0, 0], t4);
    NextField(c, 8, LittleEndian(size, 8), t5);
  }

  lemma TailFields(c: seq<Byte>, partSize: nat, total: nat, locKey: seq<Byte>, bits: seq<bv8>)
    requires |c| == 32 + |locKey| + |bits| && c[16..] == TailOf(partSize, total, locKey, bits)
    ensures c[16..20] == LittleEndian(partSize, 4) && c[20..24] == LittleEndian(total, 4)
    ensures c[24..28] == LittleEndian(|locKey|, 4)
    ensures c[32..32 + |locKey|] == locKey && c[32 + |locKey|..32 + |locKey| + |bits|] == ToBytes(bits)
  {
    var t9: seq<Byte> := locKey + ToBytes(bits);
    var t8: seq<Byte> := [0, 0, 0, 0] + t9;
    var t7 := LittleEndian(|locKey|, 4) + t8;
    NextField(c, 16, LittleEndian(partSize, 4), LittleEndian(total, 4) + t7);
    NextField(c, 20, LittleEndian(total, 4), t7);
    NextField(c, 24, LittleEndian(|locKey|, 4), t8);
    NextField(c, 28, [0, 0, 0, 0], t9);
    NextField(c, 32, locKey, ToBytes(bits));
    assert c[32 + |locKey|..32 + |locKey| + |bits|] == c[32 + |locKey|..];
  }

  lemma SavedFields(size: nat, partSize: nat, total: nat, locKey: seq<Byte>, bits: seq<bv8>)
    ensures var c := Saved(size, partSize, total, locKey, bits);
      && |c| == 32 + |locKey| + |bits|
      && c[0..4] == LittleEndian(MAGIC, 4) && c[4..6] == LittleEndian(VERSION, 2)
      && c[8..16] == LittleEndian(size, 8) && c[16..20] == LittleEndian(partSize, 4)
      && c[20..24] == LittleEndian(total, 4) && c[24..28] == LittleEndian(|locKey|, 4)
      && c[32..32 + |locKey|] == locKey && c[32 + |locKey|..32 + |locKey| + |bits|] == ToBytes(bits)
  {
    HeadFields(size, partSize, total, locKey, bits);
    TailFields(Saved(size, partSize, total, locKey, bits), partSize, total, locKey, bits);
  }

  lemma BitmapRoundTrip(bits: seq<bv8>)
    ensures FromBytes(ToBytes(bits)) == bits
  {
  }

  /** The fields one by one. */
  ghost predicate FieldsAgree(c: seq<Byte>, size: nat, partSize: nat, total: nat, locKey: seq<Byte>, bits: seq<bv8>) {
    var start := 32 + |locKey|;
    && |c| >= start + |bits| && HeaderBytes(c, size, partSize, total, |locKey|)
    && c[32..start] == locKey && c[start..start + |bits|] == ToBytes(bits)
  }

  ghost predicate HeaderBytes(c: seq<Byte>, size: nat, partSize: nat, total: nat, keyLength: nat)
    requires |c| >= 32
  {
    && c[0..4] == LittleEndian(MAGIC, 4) && c[4..6] == LittleEndian(VERSION, 2) && c[8..16] == LittleEndian(size, 8)
    && c[16..20] == LittleEndian(partSize, 4) && c[20..24] == LittleEndian(total, 4)
    && c[24..28] == LittleEndian(keyLength, 4)
  }

  lemma LoadOfFields(c: seq<Byte>, size: int, partSize: int, locKey: seq<Byte>, bits: seq<bv8>,
                     size': int, partSize': int, locKey': seq<Byte>)
    requires ValidDimensions(size, partSize) && partSize < 0x1_0000_0000 && |locKey| <= MAX_KEY
    requires |bits| == (Count(size, partSize) + 7) / 8
    requires FieldsAgree(c, size, partSize, Count(size, partSize), locKey, bits)
    ensures LoadFrom(c, size', partSize', locKey')
      == if size' == size && partSize' == partSize && locKey' == locKey then Loaded(bits) else Rejected
  {
    NumbersOfFields(c, size, partSize, Count(size, partSize), locKey, bits);
    LoadOfNumbers(c, size, partSize, locKey, bits, size', partSize', locKey');
  }

  /** Header, key and bits as they are read. */
  predicate LoadsAs(c: seq<Byte>, size: int, partSize: int, total: int, locKey: seq<Byte>, bits: seq<bv8>) {
    var start := 32 + |locKey|;
    && |c| >= start + |bits| && HeaderHolds(c, size, partSize, total, |locKey|)
    && c[32..start] == locKey && FromBytes(c[start..start + |bits|]) == bits
  }

  lemma LoadOfNumbers(c: seq<Byte>, size: int, partSize: int, locKey: seq<Byte>, bits: seq<bv8>,
                      size': int, partSize': int, locKey': seq<Byte>)
    requires ValidDimensions(size, partSize) && |locKey| <= MAX_KEY && |bits| == (Count(size, partSize) + 7) / 8
    requires LoadsAs(c, size, partSize, Count(size, partSize), locKey, bits)
    ensures LoadFrom(c, size', partSize', locKey')
      == if size' == size && partSize' == partSize && locKey' == locKey then Loaded(bits) else Rejected
  {
    if size' != size || partSize' != partSize || |locKey'| != |locKey| {
      assert |c| >= 32;
    } else if locKey' != locKey {
      KeysDiffer(c, locKey, locKey');
    }
  }

  lemma KeysDiffer(c: seq<Byte>, a: seq<Byte>, b: seq<Byte>)
    requires |a| == |b| && |c| >= 32 + |a| && c[32..32 + |a|] == a && a != b
    ensures c[32..32 + |b|] != b
  {
  }

  lemma NumbersOfFields(c: seq<Byte>, size: nat, partSize: nat, total: nat, locKey: seq<Byte>, bits: seq<bv8>)
    requires size < 0x8000_0000_0000_0000 && partSize < 0x1_0000_0000 && total <= MAX_PARTS && |locKey| <= MAX_KEY
    requires FieldsAgree(c, size, partSize, total, locKey, bits)
    ensures LoadsAs(c, size, partSize, total, locKey, bits)
  {
    FieldsReadBack(size, partSize, total, |locKey|);
    BitmapRoundTrip(bits);
  }

  /** Main result: what was saved is loaded exactly by a download of the same size, part size and location,
      with the same bitmap, and by no other. */
  lemma LoadsExactlyItsOwn(size: int, partSize: int, locKey: seq<Byte>, bits: seq<bv8>,
                           size': int, partSize': int, locKey': seq<Byte>)
    requires ValidDimensions(size, partSize) && partSize < 0x1_0000_0000 && |locKey| <= MAX_KEY
    requires |bits| == (Count(size, partSize) + 7) / 8
    ensures LoadFrom(Saved(size, partSize, Count(size, partSize), locKey, bits), size', partSize', locKey')
      == if size' == size && partSize' == partSize && locKey' == locKey then Loaded(bits) else Rejected
  {
    var c := Saved(size, partSize, Count(size, partSize), locKey, bits);
    SavedFields(size, partSize, Count(size, partSize), locKey, bits);
    LoadOfFields(c, size, partSize, locKey, bits, size', partSize', locKey');
  }

  lemma FieldsReadBack(size: nat, partSize: nat, total: nat, keyLength: nat)
    requires size < 0x8000_0000_0000_0000 && partSize < 0x1_0000_0000 && total <= MAX_PARTS && keyLength <= MAX_KEY
    ensures FromLittleEndian(LittleEndian(MAGIC, 4)) == MAGIC && FromLittleEndian(LittleEndian(VERSION, 2)) == VERSION
    ensures FromLittleEndian(LittleEndian(size, 8)) == size && FromLittleEndian(LittleEndian(partSize, 4)) == partSize
    ensures FromLittleEndian(LittleEndian(total, 4)) == total
    ensures FromLittleEndian(LittleEndian(keyLength, 4)) == keyLength
  {
    assert Range256(2) == 0x1_0000 && Range256(4) == 0x1_0000_0000;
    assert Range256(6) == 0x1_0000_0000_0000 && Range256(8) == 0x1_0000_0000_0000_0000;
    EndianRoundTrip(MAGIC, 4);
    EndianRoundTrip(VERSION, 2);
    EndianRoundTrip(size, 8);
    EndianRoundTrip(partSize, 4);
    EndianRoundTrip(total, 4);
    EndianRoundTrip(keyLength, 4);
  }

  // ---------- what is loaded at all ----------

  /** Two bytes after the version and the last four of the header are written as zero and never read. */
  predicate IsRead(i: int) {
    !(6 <= i < 8) && !(28 <= i < 32)
  }

  /** The content begins like the saved one, but for the bytes that are never read. */
  ghost predicate BeginsLike(content: seq<Byte>, saved: seq<Byte>) {
    |saved| <= |content| && forall i | 0 <= i < |saved| && IsRead(i) :: content[i] == saved[i]
  }

  /** Such a download could have saved these bits. */
  predicate IsProgressOf(size: int, partSize: int, locKey: seq<Byte>, bits: seq<bv8>) {
    && ValidDimensions(size, partSize) && partSize < 0x1_0000_0000 && |locKey| <= MAX_KEY
    && |bits| == (Count(size, partSize) + 7) / 8
  }

  lemma {:induction false} EndianUnique(bytes: seq<Byte>)
    ensures LittleEndian(FromLittleEndian(bytes), |bytes|) == bytes && FromLittleEndian(bytes) < Range256(|bytes|)
  {
    if bytes != [] {
      EndianUnique(bytes[1..]);
      assert FromLittleEndian(bytes) / 256 == FromLittleEndian(bytes[1..]);
    }
  }

  /** Some bv8 has the value `b`, counting up to it. */
  lemma {:induction false} SomeBits(b: int) returns (v: bv8)
    requires 0 <= b < 256
    ensures v as int == b
  {
    v := 0;
    if b > 0 {
      var u := SomeBits(b - 1);
      OneMore(u);
      v := u + 1;
    }
  }

  lemma OneMore(v: bv8)
    requires v as int < 255
    ensures (v + 1) as int == v as int + 1
  {
  }

  lemma BitsRoundTrip(v: bv8, b: int)
    requires v as int == b
    ensures b as bv8 == v
  {
  }

  lemma ByteRoundTrip(b: int)
    requires 0 <= b < 256
    ensures (b as bv8) as int == b
  {
    var v := SomeBits(b);
    BitsRoundTrip(v, b);
  }

  lemma BytesRoundTrip(bytes: seq<Byte>)
    ensures ToBytes(FromBytes(bytes)) == bytes
  {
    forall i | 0 <= i < |bytes| ensures ToBytes(FromBytes(bytes))[i] == bytes[i] {
      ByteRoundTrip(bytes[i]);
    }
  }

  /** A field holds a number exactly when its bytes are that number's. */
  lemma FieldHolds(bytes: seq<Byte>, n: nat)
    requires n < Range256(|bytes|)
    ensures FromLittleEndian(bytes) == n <==> bytes == LittleEndian(n, |bytes|)
  {
    EndianUnique(bytes);
    EndianRoundTrip(n, |bytes|);
  }

  ghost predicate SameIn(c: seq<Byte>, s: seq<Byte>, lo: int, hi: int)
    requires 0 <= lo <= hi <= |s| <= |c|
  {
    forall i | lo <= i < hi :: c[i] == s[i]
  }

  lemma SliceAgrees(c: seq<Byte>, s: seq<Byte>, lo: nat, hi: nat)
    requires lo <= hi <= |s| <= |c|
    ensures c[lo..hi] == s[lo..hi] <==> SameIn(c, s, lo, hi)
  {
    if c[lo..hi] == s[lo..hi] {
      forall i | lo <= i < hi ensures c[i] == s[i] {
        assert c[lo..hi][i - lo] == s[lo..hi][i - lo];
      }
    }
  }

  lemma BeginsLikeByFields(c: seq<Byte>, s: seq<Byte>, start: nat)
    requires 32 <= start <= |s| <= |c|
    ensures BeginsLike(c, s) <==>
      && SameIn(c, s, 0, 4) && SameIn(c, s, 4, 6) && SameIn(c, s, 8, 16) && SameIn(c, s, 16, 20)
      && SameIn(c, s, 20, 24) && SameIn(c, s, 24, 28) && SameIn(c, s, 32, start) && SameIn(c, s, start, |s|)
  {
  }

  lemma FieldsAreContent(c: seq<Byte>, size: nat, partSize: nat, total: nat, locKey: seq<Byte>, bits: seq<bv8>)
    ensures FieldsAgree(c, size, partSize, total, locKey, bits)
      <==> BeginsLike(c, Saved(size, partSize, total, locKey, bits))
  {
    var s := Saved(size, partSize, total, locKey, bits);
    SavedFields(size, partSize, total, locKey, bits);
    if |s| <= |c| { FieldsAreSlices(c, s, size, partSize, total, locKey, bits); }
  }

  lemma FieldsAreSlices(
      c: seq<Byte>, s: seq<Byte>, size: nat, partSize: nat, total: nat, locKey: seq<Byte>, bits: seq<bv8>)
    requires |s| <= |c| && |s| == 32 + |locKey| + |bits| && FieldsAgree(s, size, partSize, total, locKey, bits)
    ensures FieldsAgree(c, size, partSize, total, locKey, bits) <==> BeginsLike(c, s)
  {
    SliceAgrees(c, s, 0, 4);
    SliceAgrees(c, s, 4, 6);
    SliceAgrees(c, s, 8, 16);
    SliceAgrees(c, s, 16, 20);
    SliceAgrees(c, s, 20, 24);
    SliceAgrees(c, s, 24, 28);
    SliceAgrees(c, s, 32, 32 + |locKey|);
    SliceAgrees(c, s, 32 + |locKey|, |s|);
    BeginsLikeByFields(c, s, 32 + |locKey|);
  }

  lemma NumbersDecide(c: seq<Byte>, size: nat, partSize: nat, total: nat, keyLength: nat)
    requires |c| >= 32 && size < 0x8000_0000_0000_0000 && partSize < 0x1_0000_0000
    requires total <= MAX_PARTS && keyLength <= MAX_KEY
    ensures HeaderHolds(c, size, partSize, total, keyLength) <==> HeaderBytes(c, size, partSize, total, keyLength)
  {
    assert Range256(2) == 0x1_0000 && Range256(4) == 0x1_0000_0000;
    assert Range256(6) == 0x1_0000_0000_0000 && Range256(8) == 0x1_0000_0000_0000_0000;
    FieldHolds(c[0..4], MAGIC);
    FieldHolds(c[4..6], VERSION);
    FieldHolds(c[8..16], size);
    FieldHolds(c[16..20], partSize);
    FieldHolds(c[20..24], total);
    FieldHolds(c[24..28], keyLength);
  }

  lemma FieldsDecide(c: seq<Byte>, size: nat, partSize: nat, locKey: seq<Byte>, bits: seq<bv8>)
    requires IsProgressOf(size, partSize, locKey, bits)
    ensures LoadFrom(c, size, partSize, locKey) == Loaded(bits)
      <==> FieldsAgree(c, size, partSize, Count(size, partSize), locKey, bits)
  {
    LoadedMeans(c, size, partSize, locKey, bits);
    if |c| >= 32 + |locKey| + |bits| { FieldsMean(c, size, partSize, Count(size, partSize), locKey, bits); }
  }

  lemma LoadedMeans(c: seq<Byte>, size: int, partSize: int, locKey: seq<Byte>, bits: seq<bv8>)
    requires IsProgressOf(size, partSize, locKey, bits)
    ensures LoadFrom(c, size, partSize, locKey) == Loaded(bits)
      <==> LoadsAs(c, size, partSize, Count(size, partSize), locKey, bits)
  {
  }

  lemma FieldsMean(c: seq<Byte>, size: nat, partSize: nat, total: nat, locKey: seq<Byte>, bits: seq<bv8>)
    requires size < 0x8000_0000_0000_0000 && partSize < 0x1_0000_0000 && total <= MAX_PARTS && |locKey| <= MAX_KEY
    requires |c| >= 32 + |locKey| + |bits|
    ensures LoadsAs(c, size, partSize, total, locKey, bits) <==> FieldsAgree(c, size, partSize, total, locKey, bits)
  {
    NumbersDecide(c, size, partSize, total, |locKey|);
    BitsMean(c, 32 + |locKey|, bits);
  }

  lemma BitsMean(c: seq<Byte>, start: nat, bits: seq<bv8>)
    requires start + |bits| <= |c|
    ensures FromBytes(c[start..start + |bits|]) == bits <==> c[start..start + |bits|] == ToBytes(bits)
  {
    BitsDecide(c[start..start + |bits|], bits);
  }

  lemma BitsDecide(bytes: seq<Byte>, bits: seq<bv8>)
    ensures FromBytes(bytes) == bits <==> bytes == ToBytes(bits)
  {
    BytesRoundTrip(bytes);
    BitmapRoundTrip(bits);
  }

  /** For any content at all, truncated, foreign or damaged: these bits are loaded exactly when a download of
      this size, part size and location could have saved them and the content begins as it would have saved them. */
  lemma LoadsExactlyWhatWasSaved(content: seq<Byte>, size: int, partSize: int, locKey: seq<Byte>, bits: seq<bv8>)
    ensures LoadFrom(content, size, partSize, locKey) == Loaded(bits) <==>
      IsProgressOf(size, partSize, locKey, bits)
      && BeginsLike(content, Saved(size, partSize, Count(size, partSize), locKey, bits))
  {
    if IsProgressOf(size, partSize, locKey, bits) {
      FieldsDecide(content, size, partSize, locKey, bits);
      FieldsAreContent(content, size, partSize, Count(size, partSize), locKey, bits);
    } else if LoadFrom(content, size, partSize, locKey) == Loaded(bits) {
      assert Range256(4) == 0x1_0000_0000;
      EndianUnique(content[16..20]);
    }
  }
}
