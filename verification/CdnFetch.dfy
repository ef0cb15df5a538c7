/** fetchPartCDN (telegram/media.go): a part read from a content delivery network, which is not trusted,
    checked against digests from the origin server, which is. */
module CdnFetch {
  import opened Files
  import opened RetryFetch
  import opened ChunkDownload

  type Digest = int

  datatype FileHash = FileHash(offset: int, limit: int, digest: Digest)

  /** A range that has been read and whose digest matched. */
  datatype Checked = Checked(hash: FileHash, bytes: seq<Byte>)

  datatype HashReply = Hashes(hashes: seq<FileHash>) | NoReply

  datatype CdnResult = Verified(bytes: seq<Byte>) | OriginFailed | IntegrityFailed | BlockFailed

  const MAX_HASHES: nat := 8192

  /** copyCDNHashes: what a trusted hash range must look like. */
  predicate ValidHash(h: FileHash) {
    0 <= h.offset && h.offset % LEAST == 0 && 0 < h.limit <= BlockRest(h.offset)
  }

  predicate ValidHashes(hashes: seq<FileHash>) {
    |hashes| <= MAX_HASHES && forall i | 0 <= i < |hashes| :: ValidHash(hashes[i])
  }

  predicate Covers(h: FileHash, x: int) {
    h.offset <= x < h.offset + h.limit
  }

  /** The position of the first range that covers `x`, or the number of ranges. */
  method Find(hashes: seq<FileHash>, x: int) returns (i: nat)
    ensures i <= |hashes| && (i < |hashes| ==> Covers(hashes[i], x))
    ensures forall j | 0 <= j < i :: !Covers(hashes[j], x)
  {
    i := 0;
    while i < |hashes| && !Covers(hashes[i], x)
      invariant i <= |hashes| && forall j | 0 <= j < i :: !Covers(hashes[j], x)
    {
      i := i + 1;
    }
  }

  predicate IsBlockSize(n: int) {
    n in {4096, 8192, 16384, 32768, 65536, 131072, 262144, 524288, 1048576}
  }

  /** The least block size that holds so much. */
  predicate FitsBlock(limit: int, n: int) {
    IsBlockSize(n) && limit <= n && (n > LEAST ==> n < 2 * limit)
  }

  method BlockSize(limit: int) returns (n: int)
    requires 0 < limit <= MEGABYTE
    ensures FitsBlock(limit, n)
  {
    n := LEAST;
    while n < limit
      invariant IsBlockSize(n) && (n > LEAST ==> n < 2 * limit)
      decreases limit - n
    {
      n := n * 2;
    }
  }

  lemma AlignedBlock(offset: int, n: int)
    requires IsBlockSize(n) && 0 <= offset && offset % n == 0
    ensures Acceptable(Range(offset, n), MEGABYTE)
  {
    var m, j := BlockSizeFacts(n);
    var q := offset / n;
    assert offset == n * q;
    BlockFits(offset, q, n, m);
    BlockIsKilobytes(offset, q, n, j);
  }

  lemma BlockSizeFacts(n: int) returns (m: int, j: int)
    requires IsBlockSize(n)
    ensures 0 < m && n * m == MEGABYTE && n == 1024 * j && 0 < n <= MEGABYTE
  {
    m, j := MEGABYTE / n, n / 1024;
  }

  lemma BlockIsKilobytes(offset: int, q: int, n: int, j: int)
    requires offset == n * q && n == 1024 * j
    ensures OnKilobyte(offset) && OnKilobyte(n)
  {
    Times(1024, j, q);
    Multiple(offset, j * q);
    Multiple(n, j);
  }

  lemma Times(a: int, b: int, c: int)
    ensures (a * b) * c == a * (b * c)
  {
  }

  lemma Multiple(x: int, k: int)
    requires x == 1024 * k
    ensures OnKilobyte(x)
  {
  }

  /** A multiple of n is at least n short of the end of its block, since n divides the block. */
  lemma BlockFits(offset: int, q: int, n: int, m: int)
    requires 0 < n && 0 < m && n * m == MEGABYTE && offset == n * q
    ensures n <= BlockRest(offset)
  {
    var a, r := q / m, q % m;
    Spread(n, m, a, r);
    StepsBelow(n, m, r);
    RestAfter(offset, a, n * r);
  }

  lemma Spread(n: int, m: int, a: int, r: int)
    ensures n * (m * a + r) == (n * m) * a + n * r
  {
    Times(n, m, a);
  }

  lemma {:induction false} StepsBelow(n: int, m: int, r: int)
    requires 0 < n && 0 <= r < m
    ensures 0 <= n * r <= n * m - n
    decreases m - r
  {
    if r < m - 1 {
      StepsBelow(n, m, r + 1);
      assert n * (r + 1) == n * r + n;
      NotNegative(n, r);
    } else {
      assert n * m == n * r + n;
      NotNegative(n, r);
    }
  }

  lemma NotNegative(n: int, r: int)
    requires 0 < n && 0 <= r
    ensures 0 <= n * r
  {
  }

  lemma RestAfter(offset: int, a: int, t: int)
    requires offset == MEGABYTE * a + t && 0 <= t < MEGABYTE
    ensures BlockRest(offset) == MEGABYTE - t
  {
  }

  /** Every byte of `out`, the file from `offset` on, comes from a range whose digest matched. */
  ghost predicate Backed(out: seq<Byte>, offset: int, checked: seq<Checked>) {
    forall k | 0 <= k < |out| :: IsBacked(checked, offset + k, out[k])
  }

  ghost predicate IsBacked(checked: seq<Checked>, x: int, b: Byte) {
    exists i :: 0 <= i < |checked| && Backs(checked[i], x, b)
  }

  ghost predicate Backs(c: Checked, x: int, b: Byte) {
    Covers(c.hash, x) && |c.bytes| == c.hash.limit && c.bytes[x - c.hash.offset] == b
  }

  ghost predicate DigestsMatch(checked: seq<Checked>, sha: seq<Byte> -> Digest) {
    forall i | 0 <= i < |checked| :: sha(checked[i].bytes) == checked[i].hash.digest
  }

  ghost predicate IsFromOrigin(h: FileHash, known: seq<FileHash>, ask: (nat, int) -> HashReply) {
    h in known || exists n, x :: ask(n, x).Hashes? && h in ask(n, x).hashes
  }

  ghost predicate AreFromOrigin(hashes: seq<FileHash>, known: seq<FileHash>, ask: (nat, int) -> HashReply) {
    forall i | 0 <= i < |hashes| :: IsFromOrigin(hashes[i], known, ask)
  }

  ghost predicate FromOrigin(checked: seq<Checked>, known: seq<FileHash>, ask: (nat, int) -> HashReply) {
    forall i | 0 <= i < |checked| :: IsFromOrigin(checked[i].hash, known, ask)
  }

  function EndOf(part: Range, size: int): int {
    if 0 < size < part.offset + part.limit then size else part.offset + part.limit
  }

  /** All of the part up to the known size, or up to where the origin has no more hashes. */
  ghost predicate IsComplete(part: Range, size: int, length: int, ask: (nat, int) -> HashReply) {
    || length == Max(0, EndOf(part, size) - part.offset)
    || (size <= 0 && NoMoreHashes(ask, part.offset + length))
  }

  ghost predicate NoMoreHashes(ask: (nat, int) -> HashReply, x: int) {
    exists n :: ask(n, x) == Hashes([])
  }

  /** All that is known of the bytes so far: where they come from, and what vouches for them. */
  ghost predicate Vouched(out: seq<Byte>, offset: int, checked: seq<Checked>, known: seq<FileHash>,
                          ask: (nat, int) -> HashReply, sha: seq<Byte> -> Digest) {
    Backed(out, offset, checked) && DigestsMatch(checked, sha) && FromOrigin(checked, known, ask)
  }

  /** The part is read in hash ranges, whole ones, and only bytes of a range whose digest matched are used,
      whatever the delivery network answers. */
  method FetchPartCDN(part: Range, size: int, known: seq<FileHash>, ask: (nat, int) -> HashReply, worlds: nat -> World,
                      sha: seq<Byte> -> Digest, ghost file: seq<Byte>)
    returns (result: CdnResult, ghost checked: seq<Checked>, ghost requests: seq<Range>)
    requires 0 <= part.offset && 0 < part.limit && ValidHashes(known)
    ensures AllAcceptable(requests, MEGABYTE)
    ensures result.Verified? ==> Vouched(result.bytes, part.offset, checked, known, ask, sha)
    ensures result.Verified? ==> |result.bytes| <= part.limit && IsComplete(part, size, |result.bytes|, ask)
    ensures HonestOrigin(known, ask, file, sha) && AllReliable(worlds, file) && (size > 0 ==> size == |file|)
      ==> result.Verified?
  {
    var end := part.offset + part.limit;
    if size > 0 && size < end { end := size; }
    checked, requests := [], [];
    var out: seq<Byte> := [];
    var hashes := known;
    var cursor, asked, block := part.offset, 0, 0;
    while cursor < end
      invariant part.offset <= cursor && |out| == cursor - part.offset
      invariant cursor <= end || out == []
      invariant ValidHashes(hashes) && AreFromOrigin(hashes, known, ask)
      invariant AllAcceptable(requests, MEGABYTE)
      invariant Vouched(out, part.offset, checked, known, ask, sha)
      decreases end - cursor
    {
      var located, i := None, 0;
      located, hashes, i := Locate(hashes, cursor, size, known, ask, asked, sha, file);
      asked := asked + 1;
      match located {
        case AtEnd => break;
        case Refused(problem) => return problem, checked, requests;
        case None =>
      }
      var h := hashes[i];
      var read, tried := ReadChecked(h, worlds(block), sha, file);
      block := block + 1;
      requests := requests + tried;
      if !read.Verified? { return read, checked, requests; }
      var next := Min(end, h.offset + h.limit);
      ghost var c := Checked(h, read.bytes);
      VouchedFurther(out, part.offset, checked, c, next, known, ask, sha);
      checked := checked + [c];
      out := out + read.bytes[cursor - h.offset..next - h.offset];
      cursor := next;
    }
    return Verified(out), checked, requests;
  }

  datatype Located = None | AtEnd | Refused(problem: CdnResult)

  /** A trusted range that covers the cursor, from the list at hand or from a new one. */
  method Locate(hashes: seq<FileHash>, cursor: int, size: int, ghost known: seq<FileHash>,
                ask: (nat, int) -> HashReply, asked: nat, ghost sha: seq<Byte> -> Digest, ghost file: seq<Byte>)
    returns (located: Located, current: seq<FileHash>, i: nat)
    requires ValidHashes(hashes) && AreFromOrigin(hashes, known, ask)
    ensures located == None ==>
      ValidHashes(current) && AreFromOrigin(current, known, ask) && i < |current| && Covers(current[i], cursor)
    ensures located == AtEnd ==> size <= 0 && NoMoreHashes(ask, cursor)
    ensures located.Refused? ==> !located.problem.Verified?
    ensures HonestOrigin(known, ask, file, sha) && (size > 0 ==> cursor < size == |file|) && 0 <= cursor
      ==> !located.Refused?
  {
    i := Find(hashes, cursor);
    if i < |hashes| { return None, hashes, i; }
    var reply := ask(asked, cursor);
    if reply.NoReply? { return Refused(OriginFailed), hashes, i; }
    current := reply.hashes;
    if !ValidHashes(current) { return Refused(IntegrityFailed), current, i; }
    i := Find(current, cursor);
    if i < |current| { return None, current, i; }
    if size <= 0 && |current| == 0 { return AtEnd, current, i; }
    return Refused(IntegrityFailed), current, i;
  }

  /** One whole hash range, in an aligned block that holds it, with a matching digest. */
  method ReadChecked(h: FileHash, world: World, sha: seq<Byte> -> Digest, ghost file: seq<Byte>)
    returns (result: CdnResult, ghost requests: seq<Range>)
    requires ValidHash(h)
    ensures AllAcceptable(requests, MEGABYTE)
    ensures result.Verified? ==> |result.bytes| == h.limit && sha(result.bytes) == h.digest
    ensures TrueHash(h, file, sha) && AlignedHash(h) && Reliable(world, file) ==> result.Verified?
  {
    requests := [];
    var limit := BlockSize(h.limit);
    if h.offset % limit != 0 { return IntegrityFailed, requests; }
    AlignedBlock(h.offset, limit);
    var fetched, tried := FetchWithRetry(Range(h.offset, limit), world, file);
    if TrueHash(h, file, sha) { SliceSplits(file, h.offset, h.limit, limit - h.limit); }
    PartsAreAcceptable([], tried.requests, Range(h.offset, limit), MEGABYTE);
    assert [] + tried.requests == tried.requests;
    requests := tried.requests;
    if fetched.Error? { return BlockFailed, requests; }
    var data := fetched.bytes;
    if |data| < h.limit { return IntegrityFailed, requests; }
    if sha(data[..h.limit]) != h.digest { return IntegrityFailed, requests; }
    return Verified(data[..h.limit]), requests;
  }

  lemma VouchedFurther(out: seq<Byte>, offset: int, checked: seq<Checked>, c: Checked, next: int, known: seq<FileHash>,
                       ask: (nat, int) -> HashReply, sha: seq<Byte> -> Digest)
    requires Vouched(out, offset, checked, known, ask, sha)
    requires IsFromOrigin(c.hash, known, ask) && sha(c.bytes) == c.hash.digest
    requires Covers(c.hash, offset + |out|) && |c.bytes| == c.hash.limit
    requires offset + |out| <= next <= c.hash.offset + c.hash.limit
    ensures var more := c.bytes[offset + |out| - c.hash.offset..next - c.hash.offset];
      Vouched(out + more, offset, checked + [c], known, ask, sha)
  {
    BackedFurther(out, offset, checked, c, next);
  }

  lemma BackedFurther(out: seq<Byte>, offset: int, checked: seq<Checked>, c: Checked, next: int)
    requires Backed(out, offset, checked) && Covers(c.hash, offset + |out|) && |c.bytes| == c.hash.limit
    requires offset + |out| <= next <= c.hash.offset + c.hash.limit
    ensures Backed(out + c.bytes[offset + |out| - c.hash.offset..next - c.hash.offset], offset, checked + [c])
  {
    var more := c.bytes[offset + |out| - c.hash.offset..next - c.hash.offset];
    forall k | 0 <= k < |out + more|
      ensures IsBacked(checked + [c], offset + k, (out + more)[k])
    {
      if k < |out| {
        assert IsBacked(checked, offset + k, out[k]);
        var i :| 0 <= i < |checked| && Backs(checked[i], offset + k, out[k]);
        assert Backs((checked + [c])[i], offset + k, (out + more)[k]);
      } else {
        assert Backs((checked + [c])[|checked|], offset + k, (out + more)[k]);
      }
    }
  }

  // ---------- with a truthful origin ----------

  ghost predicate TrueHash(h: FileHash, file: seq<Byte>, sha: seq<Byte> -> Digest) {
    0 <= h.offset && 0 <= h.limit && h.offset + h.limit <= |file| && h.digest == sha(Slice(file, h.offset, h.limit))
  }

  /** The origin's hashes are those of the file, and it runs out of them only at the end of the file. */
  ghost predicate TrueOrigin(known: seq<FileHash>, ask: (nat, int) -> HashReply, file: seq<Byte>,
                             sha: seq<Byte> -> Digest) {
    && (forall h | IsFromOrigin(h, known, ask) :: TrueHash(h, file, sha))
    && (forall n, x | ask(n, x) == Hashes([]) :: |file| <= x)
  }

  /** The range starts at a multiple of the least block size that holds it. */
  ghost predicate AlignedHash(h: FileHash) {
    forall n | FitsBlock(h.limit, n) :: h.offset % n == 0
  }

  ghost predicate AnyCovers(hashes: seq<FileHash>, x: int) {
    exists i :: 0 <= i < |hashes| && Covers(hashes[i], x)
  }

  /** A true origin that always answers, with valid and aligned ranges, one of them covering the byte asked for. */
  ghost predicate HonestOrigin(known: seq<FileHash>, ask: (nat, int) -> HashReply, file: seq<Byte>,
                               sha: seq<Byte> -> Digest) {
    && TrueOrigin(known, ask, file, sha)
    && (forall h | IsFromOrigin(h, known, ask) :: AlignedHash(h))
    && (forall n, x | 0 <= x :: Answers(ask(n, x), x, file))
  }

  ghost predicate Answers(reply: HashReply, x: int, file: seq<Byte>) {
    && reply.Hashes?
    && if x < |file| then ValidHashes(reply.hashes) && AnyCovers(reply.hashes, x) else reply.hashes == []
  }

  ghost predicate CollisionFree(sha: seq<Byte> -> Digest) {
    forall a, b | sha(a) == sha(b) :: a == b
  }

  /** Main result: with a truthful origin and a collision-free digest, what FetchPartCDN accepts is the
      file's content, even if every answer of the delivery network was forged. */
  lemma AcceptedIsTheFile(part: Range, size: int, out: seq<Byte>, checked: seq<Checked>, known: seq<FileHash>,
                          ask: (nat, int) -> HashReply, sha: seq<Byte> -> Digest, file: seq<Byte>)
    requires 0 <= part.offset && 0 < part.limit && (size > 0 ==> size == |file|)
    requires TrueOrigin(known, ask, file, sha) && CollisionFree(sha)
    requires Vouched(out, part.offset, checked, known, ask, sha)
    requires |out| <= part.limit && IsComplete(part, size, |out|, ask)
    ensures out == Slice(file, part.offset, part.limit)
  {
    BytesAreFiles(part.offset, out, checked, known, ask, sha, file);
    CompleteLength(part, size, |out|, ask, file);
    MatchIsSlice(part, out, file);
  }

  /** The bytes are those of the file from `offset` on. */
  ghost predicate Matches(out: seq<Byte>, offset: int, file: seq<Byte>) {
    forall k | 0 <= k < |out| :: IsByteOf(file, offset + k, out[k])
  }

  predicate IsByteOf(file: seq<Byte>, x: int, b: Byte) {
    0 <= x < |file| && file[x] == b
  }

  /** Complete means up to the end of the part or of the file. */
  lemma CompleteLength(part: Range, size: int, length: nat, ask: (nat, int) -> HashReply, file: seq<Byte>)
    requires 0 <= part.offset && 0 < part.limit && (size > 0 ==> size == |file|)
    requires forall n, x | ask(n, x) == Hashes([]) :: |file| <= x
    requires IsComplete(part, size, length, ask) && length <= part.limit
    requires length > 0 ==> part.offset + length <= |file|
    ensures length == |Slice(file, part.offset, part.limit)|
  {
  }

  lemma MatchIsSlice(part: Range, out: seq<Byte>, file: seq<Byte>)
    requires 0 <= part.offset && 0 < part.limit && Matches(out, part.offset, file)
    requires |out| == |Slice(file, part.offset, part.limit)|
    ensures out == Slice(file, part.offset, part.limit)
  {
    forall k | 0 <= k < |out| ensures out[k] == Slice(file, part.offset, part.limit)[k] {
      assert IsByteOf(file, part.offset + k, out[k]);
    }
  }

  lemma BytesAreFiles(offset: int, out: seq<Byte>, checked: seq<Checked>, known: seq<FileHash>,
                      ask: (nat, int) -> HashReply, sha: seq<Byte> -> Digest, file: seq<Byte>)
    requires 0 <= offset && TrueOrigin(known, ask, file, sha) && CollisionFree(sha)
    requires Vouched(out, offset, checked, known, ask, sha)
    ensures Matches(out, offset, file) && (|out| > 0 ==> offset + |out| <= |file|)
  {
    forall i | 0 <= i < |checked| ensures IsTrue(checked[i], file) {
      assert TrueHash(checked[i].hash, file, sha);
      CheckedIsTrue(checked[i], sha, file);
    }
    BackedByTrue(offset, out, checked, file);
  }

  ghost predicate IsTrue(c: Checked, file: seq<Byte>) {
    0 <= c.hash.offset && 0 <= c.hash.limit && c.bytes == Slice(file, c.hash.offset, c.hash.limit)
    && c.hash.offset + c.hash.limit <= |file|
  }

  lemma CheckedIsTrue(c: Checked, sha: seq<Byte> -> Digest, file: seq<Byte>)
    requires CollisionFree(sha) && TrueHash(c.hash, file, sha) && sha(c.bytes) == c.hash.digest
    ensures IsTrue(c, file)
  {
  }

  lemma BackedByTrue(offset: int, out: seq<Byte>, checked: seq<Checked>, file: seq<Byte>)
    requires 0 <= offset && Backed(out, offset, checked)
    requires forall i | 0 <= i < |checked| :: IsTrue(checked[i], file)
    ensures Matches(out, offset, file) && (|out| > 0 ==> offset + |out| <= |file|)
  {
    forall k | 0 <= k < |out| ensures IsByteOf(file, offset + k, out[k]) {
      assert IsBacked(checked, offset + k, out[k]);
      var i :| 0 <= i < |checked| && Backs(checked[i], offset + k, out[k]);
      assert IsTrue(checked[i], file);
    }
    if |out| > 0 { assert IsByteOf(file, offset + (|out| - 1), out[|out| - 1]); }
  }

  // ---------- what this is for the retry loop ----------

  /** What FetchPartCDN ensures of the bytes it accepts for a range. */
  ghost predicate IsVouchedFor(r: Range, bytes: seq<Byte>, size: int, known: seq<FileHash>,
                               ask: (nat, int) -> HashReply, sha: seq<Byte> -> Digest) {
    && |bytes| <= r.limit && IsComplete(r, size, |bytes|, ask)
    && exists checked :: Vouched(bytes, r.offset, checked, known, ask, sha)
  }

  /** So fetches that go through FetchPartCDN are faithful fetches in the sense of the retry loop. */
  lemma VouchedFetchesAreFaithful(fetch: (nat, Range, nat) -> Outcome, size: int, known: seq<FileHash>,
                                  ask: (nat, int) -> HashReply, sha: seq<Byte> -> Digest, file: seq<Byte>)
    requires TrueOrigin(known, ask, file, sha) && CollisionFree(sha) && (size > 0 ==> size == |file|)
    requires forall n: nat, r: Range, attempt: nat | 0 <= r.offset && 0 < r.limit && fetch(n, r, attempt).Data? ::
      IsVouchedFor(r, fetch(n, r, attempt).bytes, size, known, ask, sha)
    ensures Faithful(fetch, file)
  {
    forall n: nat, r: Range, attempt: nat | 0 <= r.offset && 0 < r.limit && fetch(n, r, attempt).Data?
      ensures fetch(n, r, attempt).bytes == Slice(file, r.offset, r.limit)
    {
      VouchedIsFaithful(r, fetch(n, r, attempt).bytes, size, known, ask, sha, file);
    }
  }

  lemma VouchedIsFaithful(r: Range, bytes: seq<Byte>, size: int, known: seq<FileHash>,
                          ask: (nat, int) -> HashReply, sha: seq<Byte> -> Digest, file: seq<Byte>)
    requires TrueOrigin(known, ask, file, sha) && CollisionFree(sha) && (size > 0 ==> size == |file|)
    requires 0 <= r.offset && 0 < r.limit && IsVouchedFor(r, bytes, size, known, ask, sha)
    ensures bytes == Slice(file, r.offset, r.limit)
  {
    var checked :| Vouched(bytes, r.offset, checked, known, ask, sha);
    AcceptedIsTheFile(r, size, bytes, checked, known, ask, sha, file);
  }

  // ---------- such an origin exists ----------

  /** The number of a byte string serves as a digest without collisions. */
  function Numbering(): seq<Byte> -> Digest {
    (bytes: seq<Byte>) => Code(bytes)
  }

  /** The hash of the block of 4096 bytes around `x`. */
  function BlockHash(file: seq<Byte>, x: int): FileHash
    requires 0 <= x < |file|
  {
    var offset := x / LEAST * LEAST;
    FileHash(offset, Min(LEAST, |file| - offset), Code(Slice(file, offset, Min(LEAST, |file| - offset))))
  }

  lemma BlockHashIsGood(file: seq<Byte>, x: int)
    requires 0 <= x < |file|
    ensures var h := BlockHash(file, x);
      ValidHash(h) && Covers(h, x) && TrueHash(h, file, Numbering()) && AlignedHash(h)
  {
    AlignedBlock(x / LEAST * LEAST, LEAST);
    assert x / LEAST * LEAST <= x < x / LEAST * LEAST + LEAST;
  }

  lemma HonestNetwork(file: seq<Byte>) returns (ask: (nat, int) -> HashReply, sha: seq<Byte> -> Digest)
    ensures HonestOrigin([], ask, file, sha) && CollisionFree(sha)
  {
    sha := Numbering();
    ask := (n: nat, x: int) =>
      if 0 <= x < |file| then Hashes([BlockHash(file, x)]) else if x < 0 then NoReply else Hashes([]);
    forall a, b | sha(a) == sha(b) ensures a == b {
      CodeIsInjective(a, b);
    }
    forall h | IsFromOrigin(h, [], ask) ensures TrueHash(h, file, sha) && AlignedHash(h) {
      var n, x :| ask(n, x).Hashes? && h in ask(n, x).hashes;
      BlockHashIsGood(file, x);
    }
    forall n: nat, x: int | 0 <= x ensures Answers(ask(n, x), x, file) {
      if x < |file| {
        BlockHashIsGood(file, x);
        assert Covers(ask(n, x).hashes[0], x);
      }
    }
  }
}
