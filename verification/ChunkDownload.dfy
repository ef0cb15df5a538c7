/** DownloadChunkContext (telegram/media.go): a byte range of a file through aligned requests. */
module ChunkDownload {
  import opened Files
  import opened RetryFetch

  const MEGABYTE: int := 0x10_0000

  /** validateDownloadChunkSize. */
  predicate ValidChunkSize(size: int) {
    LEAST <= size <= MEGABYTE && MEGABYTE % size == 0
  }

  function Min(a: int, b: int): int { if a < b then a else b }

  function Max(a: int, b: int): int { if a < b then b else a }

  /** How much of its megabyte block follows an offset. */
  function BlockRest(offset: int): (r: int)
    ensures 0 < r <= MEGABYTE
  {
    MEGABYTE - offset % MEGABYTE
  }

  /** downloadChunkLimit: up to the end, the chunk size or the megabyte boundary, in whole kilobytes. */
  function ChunkLimit(offset: int, end: int, chunkSize: int): int {
    RoundUp(Min(Min(end - offset, chunkSize), BlockRest(offset)))
  }

  /** What the server accepts of a precise request. */
  ghost predicate Acceptable(r: Range, chunkSize: int) {
    && 0 <= r.offset && OnKilobyte(r.offset)
    && 0 < r.limit <= chunkSize && OnKilobyte(r.limit)
    && InOneBlock(r.offset, r.limit)
  }

  /** No megabyte boundary inside. */
  ghost predicate InOneBlock(offset: int, limit: int) {
    limit <= BlockRest(offset)
  }

  // ---------- a valid chunk size is a multiple of 1024 ----------

  function Pow2(n: nat): int {
    if n == 0 then 1 else 2 * Pow2(n - 1)
  }

  lemma {:induction false} EvenDivisor(n: nat, c: int, k: int)
    requires 1 < c && c * k == Pow2(n)
    ensures c % 2 == 0 && n > 0 && c / 2 * k == Pow2(n - 1)
  {
    if n == 0 {
      NotOne(c, k);
    } else if c % 2 == 0 {
      assert c == 2 * (c / 2);
      assert 2 * (c / 2) * k == 2 * (c / 2 * k);
    } else {
      if k % 2 == 1 { OddTimesOdd(c, k); }
      assert k == 2 * (k / 2);
      assert c * (2 * (k / 2)) == 2 * (c * (k / 2));
      EvenDivisor(n - 1, c, k / 2);
    }
  }

  lemma NotOne(c: int, k: int)
    requires 1 < c
    ensures c * k != 1
  {
    if k >= 1 { assert c * k >= c; } else { assert c * k <= 0; }
  }

  lemma OddTimesOdd(c: int, k: int)
    requires c % 2 == 1 && k % 2 == 1
    ensures c * k % 2 == 1
  {
    var a, b := c / 2, k / 2;
    assert c == 2 * a + 1 && k == 2 * b + 1;
    ProductOfOdds(a, b);
    OddIsOdd(2 * (a * b) + a + b);
  }

  lemma ProductOfOdds(a: int, b: int)
    ensures (2 * a + 1) * (2 * b + 1) == 2 * (2 * (a * b) + a + b) + 1
  {
  }

  lemma OddIsOdd(x: int)
    ensures (2 * x + 1) % 2 == 1
  {
  }

  /** A divisor of a power of two that is at least another power of two is a multiple of it. */
  lemma {:induction false} MultipleOfPower(n: nat, c: int, k: int, m: nat) returns (q: int)
    requires Pow2(m) <= c && c * k == Pow2(n)
    ensures c == Pow2(m) * q
    decreases m
  {
    q := c;
    if m > 0 {
      PowPositive(m - 1);
      EvenDivisor(n, c, k);
      q := MultipleOfPower(n - 1, c / 2, k, m - 1);
      assert c == 2 * (Pow2(m - 1) * q) == (2 * Pow2(m - 1)) * q;
    }
  }

  lemma {:induction false} PowPositive(n: nat)
    ensures Pow2(n) > 0
  {
    if n > 0 { PowPositive(n - 1); }
  }

  lemma ChunkSizeIsKilobytes(size: int)
    requires ValidChunkSize(size)
    ensures OnKilobyte(size)
  {
    assert Pow2(5) == 32 && Pow2(10) == 1024 && Pow2(15) == 32768;
    assert Pow2(20) == MEGABYTE;
    assert size * (MEGABYTE / size) == MEGABYTE;
    var q := MultipleOfPower(20, size, MEGABYTE / size, 10);
    assert size == 1024 * q;
  }

  function RoundUp(x: int): int {
    (x + 1023) / 1024 * 1024
  }

  lemma RoundUpWithin(x: int, bound: int)
    requires 0 < x <= bound && OnKilobyte(bound)
    ensures 0 < RoundUp(x) <= bound && OnKilobyte(RoundUp(x))
  {
  }

  lemma RestOfBlock(offset: int)
    requires OnKilobyte(offset)
    ensures OnKilobyte(BlockRest(offset))
  {
  }

  lemma LimitIsAcceptable(offset: int, end: int, chunkSize: int)
    requires ValidChunkSize(chunkSize) && 0 <= offset < end && OnKilobyte(offset)
    ensures Acceptable(Range(offset, ChunkLimit(offset, end, chunkSize)), chunkSize)
    ensures OnKilobyte(offset + ChunkLimit(offset, end, chunkSize))
  {
    var remaining := Min(Min(end - offset, chunkSize), BlockRest(offset));
    ChunkSizeIsKilobytes(chunkSize);
    RestOfBlock(offset);
    RoundUpWithin(remaining, chunkSize);
    RoundUpWithin(remaining, BlockRest(offset));
    KilobytesAdd(offset, RoundUp(remaining));
  }

  // ---------- the download ----------

  datatype ChunkResult = Bytes(bytes: seq<Byte>) | InvalidChunkSize | InvalidRange | PartFailed | UnexpectedEnd

  ghost predicate AllAcceptable(requests: seq<Range>, chunkSize: int) {
    forall r | r in requests :: Acceptable(r, chunkSize)
  }

  /** What is due when the file has been read up to `at`. */
  ghost function Due(file: seq<Byte>, start: int, end: int, at: int): seq<Byte>
    requires 0 <= start <= end
  {
    if at <= start then [] else Slice(file, start, Min(at, end) - start)
  }

  /** `worlds(i)` is what the i-th part meets; `size` is the announced size, not positive if unknown. */
  method DownloadChunk(start: int, end: int, chunkSize: int, size: int, worlds: nat -> World, ghost file: seq<Byte>)
    returns (result: ChunkResult, ghost requests: seq<Range>)
    ensures result.InvalidChunkSize? <==> !ValidChunkSize(chunkSize)
    ensures result.InvalidRange? <==> ValidChunkSize(chunkSize) && (start < 0 || end < start)
    ensures ValidChunkSize(chunkSize) && 0 <= start <= end && AllReliable(worlds, file) && (size > 0 ==> |file| == size)
      ==> result.Bytes?
    ensures AllAcceptable(requests, chunkSize)
    ensures result.Bytes? ==> 0 <= start <= end
    ensures result.Bytes? && AllFaithful(worlds, file) && (size > 0 ==> |file| == size) ==>
      result.bytes == Slice(file, start, end - start)
    ensures result.Bytes? && size > 0 ==> |result.bytes| == Max(0, Min(end, size) - start)
    ensures result.UnexpectedEnd? ==> size > 0 && (AllFaithful(worlds, file) ==> |file| < size)
    ensures result.PartFailed? ==> !AllReliable(worlds, file)
  {
    requests := [];
    if !ValidChunkSize(chunkSize) { return InvalidChunkSize, requests; }
    if start < 0 || end < start { return InvalidRange, requests; }
    if end <= start { return Bytes([]), requests; }
    var last := if size > 0 && end > size then size else end;
    if last <= start { return Bytes([]), requests; }
    result, requests := FetchParts(start, last, chunkSize, worlds, file);
    if result.Bytes? && size > 0 && |result.bytes| != last - start { result := UnexpectedEnd; }
  }

  /** The part loop, for a non-empty range. */
  method FetchParts(start: int, end: int, chunkSize: int, worlds: nat -> World, ghost file: seq<Byte>)
    returns (result: ChunkResult, ghost requests: seq<Range>)
    requires ValidChunkSize(chunkSize) && 0 <= start < end
    ensures AllAcceptable(requests, chunkSize)
    ensures result.PartFailed? || result.Bytes?
    ensures result.PartFailed? ==> !AllReliable(worlds, file)
    ensures result.Bytes? ==> Filled(AllFaithful(worlds, file), file, start, end, end, result.bytes)
  {
    requests := [];
    ghost var faithful := AllFaithful(worlds, file);
    var index, offset := 0, start / 1024 * 1024;
    var buf: seq<Byte> := [];
    while offset < end
      invariant 0 <= offset && OnKilobyte(offset)
      invariant AllAcceptable(requests, chunkSize)
      invariant Filled(faithful, file, start, end, offset, buf)
      decreases end - offset
    {
      var part := Range(offset, ChunkLimit(offset, end, chunkSize));
      LimitIsAcceptable(offset, end, chunkSize);
      var fetched, tried := FetchWithRetry(part, worlds(index), file);
      PartsAreAcceptable(requests, tried.requests, part, chunkSize);
      requests := requests + tried.requests;
      if fetched.Error? {
        NotReliable(worlds, file, index);
        return PartFailed, requests;
      }
      var data := fetched.bytes;
      FilledAfter(worlds, file, start, end, part, index, data, buf);
      if |data| == 0 { return Bytes(buf), requests; }
      buf := Extended(buf, data, offset, start, end);
      index := index + 1;
      offset := offset + |data|;
      if |data| < part.limit { return Bytes(buf), requests; }
    }
    return Bytes(buf), requests;
  }

  ghost predicate AllFaithful(worlds: nat -> World, file: seq<Byte>) {
    forall i :: Faithful(worlds(i).fetch, file)
  }

  ghost predicate AllReliable(worlds: nat -> World, file: seq<Byte>) {
    forall i :: Reliable(worlds(i), file)
  }

  lemma NotReliable(worlds: nat -> World, file: seq<Byte>, i: nat)
    requires !Reliable(worlds(i), file)
    ensures !AllReliable(worlds, file)
  {
  }

  ghost predicate Filled(faithful: bool, file: seq<Byte>, start: int, end: int, at: int, buf: seq<Byte>) {
    faithful && 0 <= start <= end ==> buf == Due(file, start, end, at)
  }

  lemma FilledAfter(worlds: nat -> World, file: seq<Byte>, start: int, end: int, part: Range, index: nat,
                    data: seq<Byte>, buf: seq<Byte>)
    requires 0 <= start < end && 0 <= part.offset < end && 0 < part.limit
    requires Gathered(worlds(index).fetch, file, part.offset, data, part.limit)
    requires Filled(AllFaithful(worlds, file), file, start, end, part.offset, buf)
    ensures var next := Extended(buf, data, part.offset, start, end);
      && (|data| == part.limit ==> Filled(AllFaithful(worlds, file), file, start, end, part.offset + |data|, next))
      && (|data| < part.limit ==> Filled(AllFaithful(worlds, file), file, start, end, end, next))
  {
    if AllFaithful(worlds, file) { DueAfter(file, start, end, part, data, buf); }
  }

  lemma InsideBlock(a: int, m: int, b: int, n: int)
    requires InOneBlock(a, m) && a <= b && 0 < n && b + n <= a + m
    ensures InOneBlock(b, n)
  {
  }

  lemma PartsAreAcceptable(before: seq<Range>, requests: seq<Range>, part: Range, chunkSize: int)
    requires AllAcceptable(before, chunkSize) && Acceptable(part, chunkSize) && AllWithin(requests, part)
    ensures AllAcceptable(before + requests, chunkSize)
  {
    forall r | r in requests ensures Acceptable(r, chunkSize) {
      assert Within(r, part);
      InsideBlock(part.offset, part.limit, r.offset, r.limit);
    }
  }

  lemma PartOfSlice(file: seq<Byte>, offset: int, limit: int, data: seq<Byte>, lo: int, hi: int)
    requires 0 <= offset && 0 <= limit && data == Slice(file, offset, limit) && 0 <= lo <= hi <= |data|
    ensures data[lo..hi] == Slice(file, offset + lo, hi - lo)
  {
    if lo < hi {
      ClampWithin(offset, limit, |file|, lo, hi);
      CutOfCut(file, offset, Clamp(offset + limit, |file|), lo, hi);
    }
  }

  lemma ClampWithin(offset: int, limit: int, size: nat, lo: int, hi: int)
    requires 0 <= offset && 0 <= limit && 0 <= lo < hi <= Clamp(offset + limit, size) - Clamp(offset, size)
    ensures Clamp(offset, size) == offset
    ensures Clamp(offset + lo, size) == offset + lo && Clamp(offset + hi, size) == offset + hi
  {
  }

  lemma CutOfCut(s: seq<Byte>, a: int, b: int, lo: int, hi: int)
    requires 0 <= a <= b <= |s| && 0 <= lo <= hi <= b - a
    ensures s[a..b][lo..hi] == s[a + lo..a + hi]
  {
    var cut := s[a..b];
    assert |cut[lo..hi]| == |s[a + lo..a + hi]|;
    forall k | 0 <= k < hi - lo ensures cut[lo..hi][k] == s[a + lo..a + hi][k] {
      assert cut[lo..hi][k] == cut[lo + k] && s[a + lo..a + hi][k] == s[a + lo + k];
    }
  }

  function Extended(buf: seq<Byte>, data: seq<Byte>, offset: int, start: int, end: int): seq<Byte>
    requires offset < end
  {
    var lo, hi := Max(0, start - offset), Min(|data|, end - offset);
    if lo < hi then buf + data[lo..hi] else buf
  }

  /** The buffer after one part: continued up to the next offset, or complete if the part was short. */
  lemma DueAfter(file: seq<Byte>, start: int, end: int, part: Range, data: seq<Byte>, buf: seq<Byte>)
    requires 0 <= start < end && 0 <= part.offset < end && 0 < part.limit
    requires data == Slice(file, part.offset, part.limit) && buf == Due(file, start, end, part.offset)
    ensures var next := Extended(buf, data, part.offset, start, end);
      && (|data| == part.limit ==> next == Due(file, start, end, part.offset + |data|))
      && (|data| < part.limit ==> next == Slice(file, start, end - start))
  {
    DueContinues(file, start, end, part, data, buf);
    if |data| < part.limit {
      EndOfFile(file, part.offset, part.limit);
      if start < part.offset + |data| < end {
        PastTheEnd(file, start, part.offset + |data| - start, end - start);
      }
    }
  }

  lemma DueContinues(file: seq<Byte>, start: int, end: int, part: Range, data: seq<Byte>, buf: seq<Byte>)
    requires 0 <= start < end && 0 <= part.offset < end && 0 < part.limit
    requires data == Slice(file, part.offset, part.limit) && buf == Due(file, start, end, part.offset)
    ensures Extended(buf, data, part.offset, start, end) == Due(file, start, end, part.offset + |data|)
  {
    if part.offset > start {
      LaterPart(file, start, end, part, data, buf);
    } else {
      FirstPart(file, start, end, part, data);
      assert buf == [];
    }
  }

  lemma LaterPart(file: seq<Byte>, start: int, end: int, part: Range, data: seq<Byte>, buf: seq<Byte>)
    requires 0 <= start < part.offset < end && 0 < part.limit
    requires data == Slice(file, part.offset, part.limit) && buf == Slice(file, start, part.offset - start)
    ensures Extended(buf, data, part.offset, start, end) == Due(file, start, end, part.offset + |data|)
  {
    var hi := Min(|data|, end - part.offset);
    ExtendedLater(buf, data, part.offset, start, end);
    PartOfSlice(file, part.offset, part.limit, data, 0, hi);
    Joined(file, start, part.offset, hi, buf, data[0..hi]);
    DueLater(file, start, end, part.offset, |data|);
  }

  lemma Joined(file: seq<Byte>, start: int, middle: int, n: int, front: seq<Byte>, back: seq<Byte>)
    requires 0 <= start <= middle && 0 <= n
    requires front == Slice(file, start, middle - start) && back == Slice(file, middle, n)
    ensures front + back == Slice(file, start, middle - start + n)
  {
    SliceSplits(file, start, middle - start, n);
  }

  lemma ExtendedLater(buf: seq<Byte>, data: seq<Byte>, offset: int, start: int, end: int)
    requires start < offset < end
    ensures Extended(buf, data, offset, start, end) == buf + data[0..Min(|data|, end - offset)]
  {
    if data == [] { assert buf + data[0..0] == buf; }
  }

  lemma DueLater(file: seq<Byte>, start: int, end: int, offset: int, n: nat)
    requires 0 <= start < offset < end
    ensures Due(file, start, end, offset + n) == Slice(file, start, offset - start + Min(n, end - offset))
  {
    assert Min(offset + n, end) - start == offset - start + Min(n, end - offset);
  }

  lemma FirstPart(file: seq<Byte>, start: int, end: int, part: Range, data: seq<Byte>)
    requires 0 <= part.offset <= start < end && 0 < part.limit && data == Slice(file, part.offset, part.limit)
    ensures Extended([], data, part.offset, start, end) == Due(file, start, end, part.offset + |data|)
  {
    var lo, hi := start - part.offset, Min(|data|, end - part.offset);
    ExtendedFirst(data, part.offset, start, end);
    if lo < hi {
      DueFirst(file, start, end, part.offset, |data|);
      StartOfRange(file, part, data, lo, hi, start);
    } else {
      DueNothing(file, start, end, part.offset + |data|);
    }
  }

  lemma StartOfRange(file: seq<Byte>, part: Range, data: seq<Byte>, lo: int, hi: int, start: int)
    requires 0 <= part.offset && 0 < part.limit && data == Slice(file, part.offset, part.limit)
    requires 0 <= lo < hi <= |data| && start == part.offset + lo
    ensures data[lo..hi] == Slice(file, start, hi - lo)
  {
    PartOfSlice(file, part.offset, part.limit, data, lo, hi);
  }

  lemma DueNothing(file: seq<Byte>, start: int, end: int, at: int)
    requires 0 <= at <= start <= end
    ensures Due(file, start, end, at) == []
  {
  }

  lemma ExtendedFirst(data: seq<Byte>, offset: int, start: int, end: int)
    requires offset <= start < end
    ensures var lo, hi := start - offset, Min(|data|, end - offset);
      Extended([], data, offset, start, end) == if lo < hi then data[lo..hi] else []
  {
    var lo, hi := start - offset, Min(|data|, end - offset);
    if lo < hi { assert [] + data[lo..hi] == data[lo..hi]; }
  }

  lemma DueFirst(file: seq<Byte>, start: int, end: int, offset: int, n: nat)
    requires 0 <= offset <= start < end && start - offset < Min(n, end - offset)
    ensures Due(file, start, end, offset + n) == Slice(file, start, Min(n, end - offset) - (start - offset))
  {
    assert Min(offset + n, end) - start == Min(n, end - offset) - (start - offset);
  }

  lemma PastTheEnd(file: seq<Byte>, offset: int, limit: int, more: int)
    requires 0 <= offset && 0 <= limit <= more && |file| <= offset + limit
    ensures Slice(file, offset, limit) == Slice(file, offset, more)
  {
  }

  lemma EndOfFile(file: seq<Byte>, offset: int, limit: int)
    requires 0 <= offset && 0 <= limit && |Slice(file, offset, limit)| < limit
    ensures |file| <= offset + |Slice(file, offset, limit)|
  {
  }
}
