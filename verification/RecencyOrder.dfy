/** Least-recently-used order, as a function of the whole sequence of touches. */
module RecencyOrder {

  ghost predicate NoDuplicates<T(!new)>(s: seq<T>) {
    forall i, j | 0 <= i < j < |s| :: s[i] != s[j]
  }

  lemma AppendFresh<T(!new)>(s: seq<T>, x: T)
    requires NoDuplicates(s) && x !in s
    ensures NoDuplicates(s + [x])
  {
    forall i, j | 0 <= i < j < |s| + 1 ensures (s + [x])[i] != (s + [x])[j] {
      assert s[i] in s;
    }
  }

  ghost function Without<T(!new)>(s: seq<T>, x: T): (r: seq<T>)
    ensures forall y :: y in r <==> y in s && y != x
    ensures NoDuplicates(s) ==> NoDuplicates(r)
    ensures |r| <= |s|
  {
    if s == [] then [] else
      var front, last := s[..|s| - 1], s[|s| - 1];
      var rest := Without(front, x);
      if last == x then rest
      else
        assert NoDuplicates(s) ==> NoDuplicates(rest + [last]) by {
          if NoDuplicates(s) { AppendFresh(rest, last); }
        }
        rest + [last]
  }

  ghost function Touched<T(!new)>(s: seq<T>, x: T): (r: seq<T>)
    ensures forall y :: y in r <==> y in s || y == x
    ensures NoDuplicates(s) ==> NoDuplicates(r)
  {
    assert NoDuplicates(s) ==> NoDuplicates(Without(s, x) + [x]) by {
      if NoDuplicates(s) { AppendFresh(Without(s, x), x); }
    }
    Without(s, x) + [x]
  }

  /** All distinct keys ever touched, least recently touched first. */
  ghost function Recent<T(!new)>(touches: seq<T>): (r: seq<T>)
    ensures NoDuplicates(r)
    ensures forall y :: y in r <==> y in touches
  {
    if touches == [] then [] else Touched(Recent(touches[..|touches| - 1]), touches[|touches| - 1])
  }

  ghost function Newest<T(!new)>(s: seq<T>, n: nat): seq<T> {
    if |s| <= n then s else s[|s| - n..]
  }

  /** The position of the last touch of `x`. */
  ghost function LastTouch<T(!new)>(touches: seq<T>, x: T): (i: nat)
    requires x in touches
    ensures i < |touches| && touches[i] == x
    ensures forall j | i < j < |touches| :: touches[j] != x
  {
    if touches[|touches| - 1] == x then |touches| - 1 else LastTouch(touches[..|touches| - 1], x)
  }

  /** Recent orders the keys by their last touch: the definition of recency, without any list moves. */
  lemma {:induction false} RecentIsByLastTouch<T(!new)>(touches: seq<T>, i: nat, j: nat)
    requires i < j < |Recent(touches)|
    ensures LastTouch(touches, Recent(touches)[i]) < LastTouch(touches, Recent(touches)[j])
  {
    var last := |touches| - 1;
    var k, before := touches[last], Recent(touches[..last]);
    var rest := Without(before, k);
    if j < |rest| {
      var p, q := WithoutKeepsOrder(before, k, i, j);
      RecentIsByLastTouch(touches[..last], p, q);
      assert rest[i] in rest && rest[j] in rest;
    } else {
      assert rest[i] in rest;
    }
  }

  lemma {:induction false} WithoutKeepsOrder<T(!new)>(s: seq<T>, x: T, i: nat, j: nat) returns (p: nat, q: nat)
    requires i < j < |Without(s, x)|
    ensures p < q < |s| && s[p] == Without(s, x)[i] && s[q] == Without(s, x)[j]
  {
    var last := |s| - 1;
    var rest := Without(s[..last], x);
    if j < |rest| {
      p, q := WithoutKeepsOrder(s[..last], x, i, j);
    } else {
      assert rest[i] in rest && rest[i] in s[..last];
      p :| 0 <= p < last && s[p] == rest[i];
      q := last;
    }
  }

  lemma {:induction false} WithoutSplits<T(!new)>(a: seq<T>, b: seq<T>, x: T)
    ensures Without(a + b, x) == Without(a, x) + Without(b, x)
  {
    if b == [] {
      assert a + b == a;
    } else {
      var last := |b| - 1;
      WithoutSplits(a, b[..last], x);
      assert (a + b)[..|a + b| - 1] == a + b[..last] && (a + b)[|a + b| - 1] == b[last];
      assert Without(b, x) == if b[last] == x then Without(b[..last], x) else Without(b[..last], x) + [b[last]];
    }
  }

  lemma {:induction false} WithoutSize<T(!new)>(s: seq<T>, x: T)
    requires NoDuplicates(s)
    ensures |Without(s, x)| == if x in s then |s| - 1 else |s|
  {
    if s != [] {
      WithoutSize(s[..|s| - 1], x);
      if s[|s| - 1] == x { assert x !in s[..|s| - 1]; }
    }
  }

  /** The stack property of LRU: what a touch leaves in the newest n depends on the newest n alone. */
  lemma TouchSeesOnlyNewest<T(!new)>(s: seq<T>, x: T, n: nat)
    requires NoDuplicates(s) && n > 0
    ensures Newest(Touched(s, x), n) == Newest(Touched(Newest(s, n), x), n)
  {
    if |s| > n {
      var head, tail := s[..|s| - n], s[|s| - n..];
      assert s == head + tail;
      WithoutSplits(head, tail, x);
      WithoutSize(tail, x);
      assert Touched(s, x) == Without(head, x) + Touched(tail, x);
      NewestOfSuffix(Without(head, x), Touched(tail, x), n);
    }
  }

  lemma NewestOfSuffix<T(!new)>(a: seq<T>, b: seq<T>, n: nat)
    requires |b| >= n
    ensures Newest(a + b, n) == Newest(b, n)
  {
  }

  /** A list that agrees with the full recency order on its newest n keeps doing so under a touch. */
  lemma TouchKeepsAgreement<T(!new)>(lru: seq<T>, touches: seq<T>, x: T, n: nat)
    requires NoDuplicates(lru) && n > 0 && Newest(lru, n) == Newest(Recent(touches), n)
    ensures Newest(Touched(lru, x), n) == Newest(Recent(touches + [x]), n)
  {
    TouchSeesOnlyNewest(lru, x, n);
    TouchSeesOnlyNewest(Recent(touches), x, n);
    assert (touches + [x])[..|touches|] == touches;
  }
}
