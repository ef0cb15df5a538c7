/** How a file of known size is cut into parts (telegram/media.go). */
module Parts {

  /** newResumeState's count; runKnownSize writes it (size + partSize - 1) / partSize. */
  function Count(size: int, partSize: int): (n: int)
    requires 0 < size && 0 < partSize
    ensures 0 < n
  {
    1 + (size - 1) / partSize
  }

  function Start(p: int, partSize: int): int {
    p * partSize
  }

  function Length(p: int, size: int, partSize: int): int {
    if size - Start(p, partSize) < partSize then size - Start(p, partSize) else partSize
  }

  lemma Division(x: int, d: int)
    requires 0 <= x && 0 < d
    ensures 0 <= x / d && x / d * d <= x < (x / d + 1) * d
  {
    assert (x / d + 1) * d == x / d * d + d;
  }

  lemma {:induction false} Monotone(a: int, b: int, d: int)
    requires 0 < d && a <= b
    ensures a * d <= b * d
    decreases b - a
  {
    if a < b {
      Monotone(a, b - 1, d);
      assert b * d == (b - 1) * d + d;
    }
  }

  lemma CountsAgree(size: int, partSize: int)
    requires 0 < size && 0 < partSize
    ensures Count(size, partSize) == (size + partSize - 1) / partSize
  {
    var q, r := (size - 1) / partSize, (size - 1) % partSize;
    assert size + partSize - 1 == (q + 1) * partSize + r by {
      assert size - 1 == q * partSize + r;
      assert (q + 1) * partSize == q * partSize + partSize;
    }
    Quotient(size + partSize - 1, partSize, q + 1, r);
  }

  lemma Quotient(x: int, d: int, q: int, r: int)
    requires 0 < d && 0 <= r < d && x == q * d + r
    ensures x / d == q
  {
    var e := x / d;
    assert x == e * d + x % d;
    if e < q { Monotone(e + 1, q, d); }
    if q < e { Monotone(q + 1, e, d); }
  }

  /** Every part is non-empty and inside the file, the last one ends it, and each starts where the one
      before it ends. */
  lemma PartFits(p: int, size: int, partSize: int)
    requires 0 < size && 0 < partSize && 0 <= p < Count(size, partSize)
    ensures 0 <= Start(p, partSize) && 0 < Length(p, size, partSize) <= partSize
    ensures Start(p, partSize) + Length(p, size, partSize) <= size
    ensures Start(p, partSize) + Length(p, size, partSize) ==
      if p == Count(size, partSize) - 1 then size else Start(p + 1, partSize)
  {
    var last := Count(size, partSize) - 1;
    Division(size - 1, partSize);
    Monotone(0, p, partSize);
    Monotone(p, last, partSize);
    assert Start(p + 1, partSize) == Start(p, partSize) + partSize;
    if p < last { Monotone(p + 1, last, partSize); }
  }

  predicate Inside(x: int, p: int, size: int, partSize: int) {
    Start(p, partSize) <= x < Start(p, partSize) + Length(p, size, partSize)
  }

  /** The parts tile the file: every byte lies in exactly one of them. */
  lemma PartsTile(x: int, size: int, partSize: int)
    requires 0 <= x < size && 0 < partSize
    ensures 0 <= x / partSize < Count(size, partSize) && Inside(x, x / partSize, size, partSize)
    ensures forall p | 0 <= p < Count(size, partSize) && Inside(x, p, size, partSize) :: p == x / partSize
  {
    Division(x, partSize);
    Division(size - 1, partSize);
    if x / partSize > (size - 1) / partSize {
      Monotone((size - 1) / partSize + 1, x / partSize, partSize);
    }
    forall p | 0 <= p < Count(size, partSize) && Inside(x, p, size, partSize) ensures p == x / partSize {
      Quotient(x, partSize, p, x - Start(p, partSize));
    }
  }

  // ---------- how much is done ----------

  /** The total length of those of the first n parts that are done. */
  function Total(done: set<int>, n: nat, size: int, partSize: int): int {
    if n == 0 then 0
    else Total(done, n - 1, size, partSize) + (if n - 1 in done then Length(n - 1, size, partSize) else 0)
  }

  lemma {:induction false} TotalOfAll(done: set<int>, n: nat, size: int, partSize: int)
    requires 0 < size && 0 < partSize && n <= Count(size, partSize)
    requires forall p | 0 <= p < n :: p in done
    ensures Total(done, n, size, partSize) == if n == Count(size, partSize) then size else Start(n, partSize)
  {
    if n > 0 {
      TotalOfAll(done, n - 1, size, partSize);
      PartFits(n - 1, size, partSize);
    }
  }

  lemma {:induction false} TotalIsBounded(done: set<int>, n: nat, size: int, partSize: int)
    requires 0 < size && 0 < partSize && n <= Count(size, partSize)
    ensures 0 <= Total(done, n, size, partSize) <= (if n == Count(size, partSize) then size else Start(n, partSize))
    ensures (exists p :: 0 <= p < n && p !in done)
      ==> Total(done, n, size, partSize) < (if n == Count(size, partSize) then size else Start(n, partSize))
  {
    if n > 0 {
      TotalIsBounded(done, n - 1, size, partSize);
      PartFits(n - 1, size, partSize);
      if p :| 0 <= p < n && p !in done { assert p == n - 1 || p < n - 1; }
    }
  }

  /** The total is the file's size exactly when every part is done. */
  lemma TotalIsSizeIffAllDone(done: set<int>, size: int, partSize: int)
    requires 0 < size && 0 < partSize
    ensures Total(done, Count(size, partSize), size, partSize) == size
      <==> forall p | 0 <= p < Count(size, partSize) :: p in done
  {
    var n := Count(size, partSize);
    TotalIsBounded(done, n, size, partSize);
    if forall p | 0 <= p < n :: p in done { TotalOfAll(done, n, size, partSize); }
  }

  lemma {:induction false} TotalOfOneMore(done: set<int>, p: int, n: nat, size: int, partSize: int)
    requires p !in done && 0 <= p < n
    ensures Total(done + {p}, n, size, partSize) == Total(done, n, size, partSize) + Length(p, size, partSize)
  {
    if p == n - 1 {
      TotalDependsBelow(done, done + {p}, n - 1, size, partSize);
    } else {
      TotalOfOneMore(done, p, n - 1, size, partSize);
    }
  }

  lemma {:induction false} TotalDependsBelow(a: set<int>, b: set<int>, n: nat, size: int, partSize: int)
    requires forall p | 0 <= p < n :: p in a <==> p in b
    ensures Total(a, n, size, partSize) == Total(b, n, size, partSize)
  {
    if n > 0 { TotalDependsBelow(a, b, n - 1, size, partSize); }
  }
}
