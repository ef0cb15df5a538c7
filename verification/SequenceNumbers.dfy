/** Message sequence numbers (network.go), as the MTProto "Detailed Description", section "Message
    Sequence Number (msg_seqno)", defines them: twice the number of content-related messages created
    before this one, plus one if this one is content-related. */
module SequenceNumbers {

  const MODULUS: int := 0x1_0000_0000

  /** Two's-complement reduction to 32 bits. */
  function Int32(n: int): int {
    (n + MODULUS / 2) % MODULUS - MODULUS / 2
  }

  /** How many of the first messages are content-related. */
  ghost function ContentCount(kinds: seq<bool>): nat {
    if kinds == [] then 0
    else ContentCount(kinds[..|kinds| - 1]) + (if kinds[|kinds| - 1] then 1 else 0)
  }

  /** The protocol's definition, for message `i` of a session. */
  ghost function Required(kinds: seq<bool>, i: nat): int
    requires i < |kinds|
  {
    2 * ContentCount(kinds[..i]) + (if kinds[i] then 1 else 0)
  }

  class Counter {
    var current: int            // an atomic int32
    ghost var kinds: seq<bool>  // for each message numbered in this session: is it content-related?

    ghost predicate Valid()
      reads this
    {
      current == Int32(ContentCount(kinds))
    }

    constructor ()
      ensures Valid() && kinds == []
    {
      current, kinds := 0, [];
    }

    method Reset()
      modifies this
      ensures Valid() && kinds == []
    {
      current, kinds := 0, [];
    }

    method GetSeqNo() returns (n: int)
      requires Valid()
      modifies this`kinds
      ensures Valid() && kinds == old(kinds) + [false]
      ensures n == Int32(Required(kinds, |kinds| - 1))
    {
      n := Int32(current * 2);
      CounterGivesNumber(ContentCount(kinds));
      NumberOfNext(kinds, false);
      kinds := kinds + [false];
    }

    method UpdateSeqNo() returns (n: int)
      requires Valid()
      modifies this
      ensures Valid() && kinds == old(kinds) + [true]
      ensures n == Int32(Required(kinds, |kinds| - 1))
    {
      ghost var count := ContentCount(kinds);
      CounterGivesNumber(count);
      NumberOfNext(kinds, true);
      current := Int32(current + 1);
      assert current == Int32(count + 1);
      n := Int32((current - 1) * 2 + 1);
      assert n == Int32(2 * count + 1);
      kinds := kinds + [true];
    }
  }

  lemma NumberOfNext(kinds: seq<bool>, related: bool)
    ensures ContentCount(kinds + [related]) == ContentCount(kinds) + (if related then 1 else 0)
    ensures Required(kinds + [related], |kinds|) == 2 * ContentCount(kinds) + (if related then 1 else 0)
  {
    assert (kinds + [related])[..|kinds|] == kinds;
  }

  /** The wrapping arithmetic of both methods yields the required number, whatever the true count. */
  lemma CounterGivesNumber(count: int)
    ensures Int32(Int32(count) * 2) == Int32(2 * count)
    ensures Int32(Int32(count) + 1) == Int32(count + 1)
    ensures Int32((Int32(count + 1) - 1) * 2 + 1) == Int32(2 * count + 1)
  {
    Periodic(count);
    Periodic(count + 1);
    var q :| Int32(count) == count + q * MODULUS;
    var r :| Int32(count + 1) == count + 1 + r * MODULUS;
    Shift(2 * count, 2 * q);
    Shift(count + 1, q);
    Shift(2 * count + 1, 2 * r);
  }

  lemma Periodic(n: int)
    ensures exists q :: Int32(n) == n + q * MODULUS
  {
    var q := -((n + MODULUS / 2) / MODULUS);
    assert Int32(n) == n + q * MODULUS;
  }

  lemma Shift(n: int, q: int)
    ensures Int32(n + q * MODULUS) == Int32(n)
  {
  }

  /** In a session of fewer than 2^30 content-related messages nothing wraps, the numbers tell the kinds
      apart, and they order the content-related messages as they were created. */
  lemma NumbersOrderContent(kinds: seq<bool>, i: nat, j: nat)
    requires i < j < |kinds| && ContentCount(kinds) < 0x4000_0000
    ensures Int32(Required(kinds, i)) == Required(kinds, i) && Int32(Required(kinds, j)) == Required(kinds, j)
    ensures Required(kinds, i) % 2 == (if kinds[i] then 1 else 0)
    ensures 0 <= Required(kinds, i) <= Required(kinds, j)
    ensures kinds[i] ==> Required(kinds, i) < Required(kinds, j)
  {
    CountGrows(kinds, i, j);
    CountGrows(kinds, j, |kinds|);
    assert kinds[..|kinds|] == kinds;
    Unwrapped(kinds, i);
    Unwrapped(kinds, j);
  }

  lemma Unwrapped(kinds: seq<bool>, i: nat)
    requires i < |kinds| && ContentCount(kinds[..i]) < 0x4000_0000
    ensures Int32(Required(kinds, i)) == Required(kinds, i)
    ensures Required(kinds, i) % 2 == (if kinds[i] then 1 else 0)
  {
    Small(ContentCount(kinds[..i]), if kinds[i] then 1 else 0);
  }

  lemma Small(count: int, bit: int)
    requires 0 <= count < 0x4000_0000 && 0 <= bit < 2
    ensures Int32(2 * count + bit) == 2 * count + bit
    ensures (2 * count + bit) % 2 == bit
  {
  }

  lemma {:induction false} CountGrows(kinds: seq<bool>, i: nat, j: nat)
    requires i < j <= |kinds|
    ensures ContentCount(kinds[..i]) + (if kinds[i] then 1 else 0) <= ContentCount(kinds[..j])
    decreases j
  {
    assert kinds[..j][..j - 1] == kinds[..j - 1];
    if i < j - 1 { CountGrows(kinds, i, j - 1); }
  }
}
