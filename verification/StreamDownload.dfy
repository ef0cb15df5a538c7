/** runUnknownSize (telegram/media.go): one part after the other, until the file ends. */
module StreamDownload {
  import opened Files
  import opened RetryFetch

  datatype Size = Unknown | Known(bytes: int)

  datatype Ending = Complete | EndsEarly | FetchError | WriteError | OutOfRounds

  /** What the part loop returns for the n-th part, and whether the n-th write succeeds. */
  datatype Supply = Supply(fetch: (nat, Range) -> Result, writable: nat -> bool)

  /** What FetchWithRetry promises of every success. */
  ghost predicate Bounded(parts: Supply) {
    forall n: nat, r: Range | 0 <= r.offset && 0 < r.limit && parts.fetch(n, r).Success? ::
      |parts.fetch(n, r).bytes| <= r.limit
  }

  ghost predicate FaithfulParts(parts: Supply, file: seq<Byte>) {
    forall n: nat, r: Range | 0 <= r.offset && 0 < r.limit && parts.fetch(n, r).Success? ::
      parts.fetch(n, r).bytes == Slice(file, r.offset, r.limit)
  }

  ghost predicate NeverFails(parts: Supply) {
    && (forall n: nat, r: Range | 0 <= r.offset && 0 < r.limit :: parts.fetch(n, r).Success?)
    && (forall n: nat :: parts.writable(n))
  }

  /** Such a supply exists for every file, so what is said of it below is said of something. */
  lemma GoodSupply(file: seq<Byte>) returns (parts: Supply)
    ensures Bounded(parts) && FaithfulParts(parts, file) && NeverFails(parts)
  {
    parts := Supply(
      (n: nat, r: Range) =>
        if 0 <= r.offset && 0 < r.limit then Success(Slice(file, r.offset, r.limit)) else Error(Fatally),
      (n: nat) => true);
  }

  /** What was written is the beginning of the file. */
  ghost predicate IsBeginning(written: seq<Byte>, file: seq<Byte>) {
    |written| <= |file| && written == file[..|written|]
  }

  /** How many parts the loop asks for at most. */
  function Enough(file: seq<Byte>, partSize: int): int
    requires 0 < partSize
  {
    |file| / partSize + 2
  }

  /** Success means the whole file, or the first `size` bytes of it where the size is known.  A faithful server
      and a willing destination lead there unless the file is shorter than its size was said to be. */
  method Stream(size: Size, partSize: int, parts: Supply, rounds: nat, ghost file: seq<Byte>)
    returns (ending: Ending, written: seq<Byte>)
    requires 0 < partSize && Bounded(parts) && (size.Known? ==> 0 < size.bytes)
    ensures FaithfulParts(parts, file) ==> IsBeginning(written, file)
    ensures ending == Complete && FaithfulParts(parts, file) && size.Unknown? ==> written == file
    ensures ending == Complete && size.Known? ==> |written| == size.bytes
    ensures FaithfulParts(parts, file) && NeverFails(parts) && rounds >= Enough(file, partSize) ==>
      ending == if size.Known? && |file| < size.bytes then EndsEarly else Complete
  {
    written := [];
    var offset, n := 0, 0;
    while n < rounds
      invariant n <= rounds && offset == n * partSize == |written|
      invariant size.Known? ==> offset <= size.bytes
      invariant FaithfulParts(parts, file) ==> IsBeginning(written, file)
    {
      if size.Known? && offset >= size.bytes { return Complete, written; }
      var result := parts.fetch(n, Range(offset, partSize));
      if result.Error? { return FetchError, written; }
      var data := result.bytes;
      if size.Known? {
        var remaining := size.bytes - offset;
        if 0 < remaining < |data| { data := data[..remaining]; }
      }
      if |data| == 0 {
        return if size.Known? && offset < size.bytes then EndsEarly else Complete, written;
      }
      if !parts.writable(n) { return WriteError, written; }
      NextPart(file, written, offset, partSize, result.bytes, data, parts, n);
      written := written + data;
      offset := offset + |data|;
      if |data| < partSize {
        return if size.Known? && offset < size.bytes then EndsEarly else Complete, written;
      }
      n := n + 1;
    }
    if FaithfulParts(parts, file) { RoundsSuffice(file, partSize, n, |written|); }
    return OutOfRounds, written;
  }

  /** A faithful answer, cut or not, continues the beginning of the file, and a short one ends it. */
  lemma NextPart(file: seq<Byte>, written: seq<Byte>, offset: int, partSize: int, bytes: seq<Byte>, data: seq<Byte>,
                 parts: Supply, n: nat)
    requires 0 < partSize && offset == |written| && parts.fetch(n, Range(offset, partSize)) == Success(bytes)
    requires data <= bytes
    ensures FaithfulParts(parts, file) && IsBeginning(written, file) ==> IsBeginning(written + data, file)
    ensures FaithfulParts(parts, file) && IsBeginning(written, file) && data == bytes && |data| < partSize
      ==> written + data == file
  {
    if FaithfulParts(parts, file) && IsBeginning(written, file) {
      assert bytes == Slice(file, offset, partSize);
    }
  }

  lemma RoundsSuffice(file: seq<Byte>, partSize: int, n: int, offset: int)
    requires 0 < partSize && 0 <= n && offset == n * partSize && offset <= |file|
    ensures n < Enough(file, partSize)
  {
    if n > |file| / partSize {
      Beyond(|file|, partSize, n);
    }
  }

  lemma {:induction false} Beyond(x: int, d: int, n: int)
    requires 0 <= x && 0 < d && n > x / d
    ensures x < n * d
    decreases n
  {
    assert x == x / d * d + x % d;
    if n > x / d + 1 {
      Beyond(x, d, n - 1);
      assert n * d == (n - 1) * d + d;
    } else {
      assert n * d == x / d * d + d;
    }
  }
}
