/** The window of received message ids (mtproto.go).

    A reader must reject a replayed server message without remembering every id it ever saw.  The code
    keeps the 1024 highest ids in a binary min-heap with a membership set.  The theorems below say that
    this bounded state answers the same question as the complete, unbounded history. */
module ReceiveWindow {

  const WINDOW: nat := 1024

  /** The distinct earlier ids that exceed `id`. */
  ghost function Exceeding(history: set<int>, id: int): set<int> {
    set x | x in history && id < x
  }

  /** The specification of one call: new, and not older than 1024 distinct earlier ids. */
  ghost predicate Fresh(history: set<int>, id: int) {
    id !in history && |Exceeding(history, id)| < WINDOW
  }

  /** `top` holds the WINDOW largest ids of `history`, or all of them while there are fewer. */
  ghost predicate IsTop(top: set<int>, history: set<int>) {
    && top <= history
    && |top| == (if |history| < WINDOW then |history| else WINDOW)
    && forall x, y | x in top && y in history && y !in top :: y < x
  }

  /** What the code decides, from the window alone. */
  ghost predicate Admits(top: set<int>, id: int) {
    id !in top && (|top| < WINDOW || exists x | x in top :: x <= id)
  }

  /** The window after an admitted id: the least id leaves a full window. */
  ghost predicate Replaces(top: set<int>, id: int, next: set<int>) {
    if |top| < WINDOW then next == top + {id}
    else exists least | least in top :: (forall x | x in top :: least <= x) && next == top - {least} + {id}
  }

  lemma SubsetSize<T>(a: set<T>, b: set<T>)
    requires a <= b
    ensures |a| <= |b|
    ensures |a| == |b| ==> a == b
  {
    assert b == a + (b - a);
  }

  /** The largest ids of a history are determined by it, so IsTop specifies the window exactly. */
  lemma TopIsUnique(a: set<int>, b: set<int>, history: set<int>)
    requires IsTop(a, history) && IsTop(b, history)
    ensures a == b
  {
    if forall x | x in a :: x in b {
      SubsetSize(a, b);
    } else if forall y | y in b :: y in a {
      SubsetSize(b, a);
    } else {
      assert false;  // two ids would each be the smaller
    }
  }

  /** Main result: the bounded window decides the unbounded question. */
  lemma WindowDecidesHistory(top: set<int>, history: set<int>, id: int)
    requires IsTop(top, history)
    ensures Admits(top, id) <==> Fresh(history, id)
  {
    var larger := Exceeding(history, id);
    if |history| < WINDOW {
      SubsetSize(top, history);
      SubsetSize(larger, history);
    } else if exists x | x in top :: x <= id {
      var x :| x in top && x <= id;
      forall y | y in larger ensures y in top - {x} {}
      SubsetSize(larger, top - {x});
    } else {
      assert top <= larger;
      SubsetSize(top, larger);
    }
  }

  /** The window after a call is the window of the extended history, whether or not the id was admitted. */
  lemma WindowFollowsHistory(top: set<int>, history: set<int>, id: int, next: set<int>)
    requires IsTop(top, history)
    requires if Admits(top, id) then Replaces(top, id, next) else next == top
    ensures IsTop(next, history + {id})
  {
    WindowDecidesHistory(top, history, id);
    if id in history {
      assert history + {id} == history;
      if |history| < WINDOW { SubsetSize(top, history); }
    } else if |top| < WINDOW {
      SubsetSize(top, history);
      assert next == history + {id};
    } else if Admits(top, id) {
      var least :| least in top && (forall x | x in top :: least <= x) && next == top - {least} + {id};
      LeastLeaves(top, history, id, least);
    } else {
      TooOldIsLeftOut(top, history, id);
    }
  }

  lemma LeastLeaves(top: set<int>, history: set<int>, id: int, least: int)
    requires IsTop(top, history) && |top| == WINDOW && id !in history
    requires least in top && (forall x | x in top :: least <= x) && least <= id
    ensures IsTop(top - {least} + {id}, history + {id})
  {
    SubsetSize(top, history);
  }

  lemma TooOldIsLeftOut(top: set<int>, history: set<int>, id: int)
    requires IsTop(top, history) && |top| == WINDOW && id !in history && (forall x | x in top :: id < x)
    ensures IsTop(top, history + {id})
  {
    SubsetSize(top, history);
  }

  // ---------- the heap ----------

  ghost function Parent(j: int): int {
    (j - 1) / 2
  }

  ghost predicate InOrder(heap: seq<int>, j: int)
    requires 0 < j < |heap|
  {
    heap[Parent(j)] <= heap[j]
  }

  ghost predicate IsHeap(heap: seq<int>) {
    forall j | 0 < j < |heap| :: InOrder(heap, j)
  }

  /** A heap but for the node `hole`, which may be below its parent. */
  ghost predicate Rising(heap: seq<int>, hole: int) {
    && (forall j | 0 < j < |heap| && j != hole :: InOrder(heap, j))
    && Bridged(heap, hole)
  }

  /** A heap but for the node `hole`, which may be above its children. */
  ghost predicate Sinking(heap: seq<int>, hole: int) {
    && (forall j | 0 < j < |heap| && Parent(j) != hole :: InOrder(heap, j))
    && Bridged(heap, hole)
  }

  /** The children of `hole` are in order with its parent, so a swap at `hole` breaks nothing else. */
  ghost predicate Bridged(heap: seq<int>, hole: int) {
    forall j | 0 < hole < j < |heap| && Parent(j) == hole :: heap[Parent(hole)] <= heap[j]
  }

  lemma {:induction false} RootIsLeast(heap: seq<int>, j: nat)
    requires IsHeap(heap) && j < |heap|
    ensures heap[0] <= heap[j]
  {
    if j > 0 {
      assert InOrder(heap, j);
      RootIsLeast(heap, Parent(j));
    }
  }

  function Swapped(heap: seq<int>, i: int, j: int): (r: seq<int>)
    requires 0 <= i < |heap| && 0 <= j < |heap|
    ensures multiset(r) == multiset(heap)
  {
    heap[i := heap[j]][j := heap[i]]
  }

  lemma SwapUp(heap: seq<int>, i: int)
    requires 0 < i < |heap| && Rising(heap, i) && heap[i] < heap[Parent(i)]
    ensures Rising(Swapped(heap, i, Parent(i)), Parent(i))
  {
    var p, next := Parent(i), Swapped(heap, i, Parent(i));
    forall j | 0 < j < |heap| && j != p ensures InOrder(next, j) {
      if j != i { assert InOrder(heap, j); }
    }
    forall j | 0 < p < j < |heap| && Parent(j) == p ensures next[Parent(p)] <= next[j] {
      assert InOrder(heap, p);
      if j != i { assert InOrder(heap, j); }
    }
  }

  lemma SwapDown(heap: seq<int>, i: int, child: int)
    requires 0 <= i < child < |heap| && Parent(child) == i && Sinking(heap, i) && heap[child] < heap[i]
    requires forall j | 0 < j < |heap| && Parent(j) == i :: heap[child] <= heap[j]
    ensures Sinking(Swapped(heap, i, child), child)
  {
    var next := Swapped(heap, i, child);
    forall j | 0 < j < |heap| && Parent(j) != child ensures InOrder(next, j) {
      if Parent(j) != i { assert InOrder(heap, j); }
    }
    forall j | 0 < child < j < |heap| && Parent(j) == child ensures next[Parent(child)] <= next[j] {
      assert InOrder(heap, j);
    }
  }

  /** The child that the code picks is the least, and the other index has no other parent. */
  lemma LeastChild(heap: seq<int>, i: int, child: int)
    requires 0 <= i && 2 * i + 1 < |heap|
    requires child == if 2 * i + 2 < |heap| && heap[2 * i + 2] < heap[2 * i + 1] then 2 * i + 2 else 2 * i + 1
    ensures Parent(child) == i
    ensures forall j | 0 < j < |heap| && Parent(j) == i :: heap[child] <= heap[j]
  {
    forall j | 0 < j < |heap| && Parent(j) == i ensures heap[child] <= heap[j] {
      assert j == 2 * i + 1 || j == 2 * i + 2;
    }
  }

  lemma Settled(heap: seq<int>, i: int)
    requires 0 <= i && Sinking(heap, i) && (forall j | 0 < j < |heap| && Parent(j) == i :: heap[i] <= heap[j])
    ensures IsHeap(heap)
  {
    forall j | 0 < j < |heap| ensures InOrder(heap, j) {
      if Parent(j) == i { assert heap[i] <= heap[j]; }
    }
  }

  lemma HeapHolds(heap: seq<int>, ids: set<int>)
    requires multiset(heap) == multiset(ids)
    ensures |heap| == |ids|
    ensures forall x :: x in ids <==> x in heap
  {
    assert |multiset(heap)| == |heap|;
    assert forall x :: x in ids <==> x in multiset(ids);
    assert forall x :: x in heap <==> x in multiset(heap);
  }

  lemma LeastAtRoot(heap: seq<int>, ids: set<int>)
    requires IsHeap(heap) && multiset(heap) == multiset(ids) && |heap| > 0
    ensures heap[0] in ids && forall x | x in ids :: heap[0] <= x
  {
    HeapHolds(heap, ids);
    forall x | x in ids ensures heap[0] <= x {
      var j :| 0 <= j < |heap| && heap[j] == x;
      RootIsLeast(heap, j);
    }
  }

  lemma ReplaceRoot(heap: seq<int>, ids: set<int>, id: int)
    requires IsHeap(heap) && multiset(heap) == multiset(ids) && |heap| > 0 && id !in ids
    ensures Sinking(heap[0 := id], 0)
    ensures multiset(heap[0 := id]) == multiset(ids - {heap[0]} + {id})
  {
    HeapHolds(heap, ids);
    assert heap[0] in heap;
    forall j | 0 < j < |heap| && Parent(j) != 0 ensures InOrder(heap[0 := id], j) {
      assert InOrder(heap, j);
    }
  }

  lemma Append(heap: seq<int>, ids: set<int>, id: int)
    requires IsHeap(heap) && multiset(heap) == multiset(ids) && id !in ids
    ensures Rising(heap + [id], |heap|)
    ensures multiset(heap + [id]) == multiset(ids + {id})
  {
    forall j | 0 < j < |heap| ensures InOrder(heap + [id], j) {
      assert InOrder(heap, j);
    }
  }

  class ReceivedMessageWindow {
    var ids: set<int>
    var heap: seq<int>
    ghost var history: set<int>  // every id presented since the window was last cleared

    ghost predicate Valid()
      reads this
    {
      && IsHeap(heap)
      && multiset(heap) == multiset(ids)
      && IsTop(ids, history)
    }

    constructor ()
      ensures Valid() && history == {}
    {
      ids, heap, history := {}, [], {};
    }

    method Clear()
      modifies this
      ensures Valid() && history == {} && ids == {}
    {
      ids, heap, history := {}, [], {};
    }

    method Contains(id: int) returns (r: bool)
      requires Valid()
      ensures r <==> id in history && |Exceeding(history, id)| < WINDOW
    {
      r := id in ids;
      ghost var larger := Exceeding(history, id);
      if r {
        forall y | y in larger ensures y in ids - {id} {}
        SubsetSize(larger, ids - {id});
      } else if id in history {
        assert ids <= larger;
        SubsetSize(ids, larger);
        SubsetSize(ids, history);
      }
    }

    method Remember(id: int) returns (accepted: bool)
      requires Valid()
      modifies this
      ensures Valid()
      ensures history == old(history) + {id}
      ensures accepted <==> Fresh(old(history), id)
      ensures accepted ==> id in ids
    {
      ghost var top, before := ids, history;
      WindowDecidesHistory(top, before, id);
      HeapHolds(heap, ids);
      history := history + {id};
      accepted := id !in ids;
      if accepted { accepted := Admit(id); }
      WindowFollowsHistory(top, before, id, ids);
    }

    /** What Remember does with an id that the window does not hold. */
    method Admit(id: int) returns (accepted: bool)
      requires IsHeap(heap) && multiset(heap) == multiset(ids) && |ids| <= WINDOW && id !in ids
      modifies this`ids, this`heap
      ensures IsHeap(heap) && multiset(heap) == multiset(ids)
      ensures accepted <==> Admits(old(ids), id)
      ensures if accepted then Replaces(old(ids), id, ids) else ids == old(ids)
    {
      ghost var top := ids;
      HeapHolds(heap, ids);
      if |heap| == WINDOW {
        LeastAtRoot(heap, ids);
        if id < heap[0] { return false; }
        ReplaceRoot(heap, ids, id);
        ids := ids - {heap[0]};
        heap := heap[0 := id];
        SiftDown();
      } else {
        Append(heap, ids, id);
        heap := heap + [id];
        SiftUp();
      }
      ids := ids + {id};
      return true;
    }

    /** Restores the heap after its root was replaced. */
    method SiftDown()
      requires Sinking(heap, 0)
      modifies this`heap
      ensures IsHeap(heap) && multiset(heap) == old(multiset(heap))
    {
      var i := 0;
      while true
        invariant 0 <= i
        invariant Sinking(heap, i)
        invariant multiset(heap) == old(multiset(heap)) && |heap| == |old(heap)|
        decreases |heap| - i
      {
        var child := 2 * i + 1;
        if child >= |heap| {
          Settled(heap, i);
          break;
        }
        if child + 1 < |heap| && heap[child + 1] < heap[child] { child := child + 1; }
        LeastChild(heap, i, child);
        if heap[i] <= heap[child] {
          Settled(heap, i);
          break;
        }
        SwapDown(heap, i, child);
        heap := Swapped(heap, i, child);
        i := child;
      }
    }

    /** Restores the heap after its last position was appended. */
    method SiftUp()
      requires |heap| > 0 && Rising(heap, |heap| - 1)
      modifies this`heap
      ensures IsHeap(heap) && multiset(heap) == old(multiset(heap))
    {
      var i := |heap| - 1;
      while i > 0
        invariant 0 <= i < |heap|
        invariant Rising(heap, i)
        invariant multiset(heap) == old(multiset(heap))
      {
        var parent := (i - 1) / 2;
        if heap[parent] <= heap[i] { break; }
        SwapUp(heap, i);
        heap := Swapped(heap, i, parent);
        i := parent;
      }
    }
  }
}
