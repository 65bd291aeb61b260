/** The pending queue: a binary max-heap of task record snapshots in a growable sequence, as
    `std::priority_queue` keeps one in a vector. */
module PendingHeap {
  import opened Records

  function Parent(i: int): int { (i - 1) / 2 }

  /** Entry `k` is not more urgent than its parent. */
  ghost predicate Below(h: seq<TaskRecord>, k: int)
    requires 0 < k < |h|
  {
    !LessUrgent(h[Parent(k)], h[k])
  }

  ghost predicate IsHeap(h: seq<TaskRecord>) {
    forall k :: 0 < k < |h| ==> Below(h, k)
  }

  /** A heap but for entry `i`, which may be more urgent than its parent. */
  ghost predicate HeapButUp(h: seq<TaskRecord>, i: int)
    requires 0 <= i < |h|
  {
    && (forall k :: 0 < k < |h| && k != i ==> Below(h, k))
    && (i > 0 ==> forall k :: 0 < k < |h| && Parent(k) == i ==> !LessUrgent(h[Parent(i)], h[k]))
  }

  /** A heap but for entry `i`, which may be less urgent than its children. */
  ghost predicate HeapButDown(h: seq<TaskRecord>, i: int)
    requires 0 <= i < |h|
  {
    && (forall k :: 0 < k < |h| && Parent(k) != i ==> Below(h, k))
    && (i > 0 ==> forall k :: 0 < k < |h| && Parent(k) == i ==> !LessUrgent(h[Parent(i)], h[k]))
  }

  function Swap(h: seq<TaskRecord>, i: int, j: int): seq<TaskRecord>
    requires 0 <= i < |h| && 0 <= j < |h|
  {
    h[i := h[j]][j := h[i]]
  }

  lemma SwapKeepsContents(h: seq<TaskRecord>, i: int, j: int)
    requires 0 <= i < |h| && 0 <= j < |h|
    ensures multiset(Swap(h, i, j)) == multiset(h)
  {
  }

  lemma AppendEntry(h: seq<TaskRecord>, r: TaskRecord)
    requires IsHeap(h)
    ensures HeapButUp(h + [r], |h|)
  {
    var g := h + [r];
    forall k | 0 < k < |g| && k != |h|
      ensures Below(g, k)
    {
      assert Below(h, k);
    }
  }

  lemma SwapUp(h: seq<TaskRecord>, i: int)
    requires 0 < i < |h| && HeapButUp(h, i) && LessUrgent(h[Parent(i)], h[i])
    ensures HeapButUp(Swap(h, i, Parent(i)), Parent(i))
  {
    var p, s := Parent(i), Swap(h, i, Parent(i));
    forall k | 0 < k < |s| && k != p
      ensures Below(s, k)
    {
      if k != i { assert Below(h, k); }
    }
    if p > 0 {
      assert Below(h, p);
      forall k | 0 < k < |s| && Parent(k) == p
        ensures !LessUrgent(s[Parent(p)], s[k])
      {
        if k != i { assert Below(h, k); }
      }
    }
  }

  /** The child of `i` the library would promote: the more urgent one. */
  function UrgentChild(h: seq<TaskRecord>, i: nat): (c: nat)
    requires 2 * i + 1 < |h|
    ensures c < |h| && Parent(c) == i && c > i
    ensures forall k :: 0 < k < |h| && Parent(k) == i ==> !LessUrgent(h[c], h[k])
  {
    if 2 * i + 2 < |h| && LessUrgent(h[2 * i + 1], h[2 * i + 2]) then 2 * i + 2 else 2 * i + 1
  }

  lemma SwapDown(h: seq<TaskRecord>, i: nat)
    requires i < |h| && 2 * i + 1 < |h| && HeapButDown(h, i)
    requires LessUrgent(h[i], h[UrgentChild(h, i)])
    ensures HeapButDown(Swap(h, i, UrgentChild(h, i)), UrgentChild(h, i))
  {
    var c := UrgentChild(h, i);
    var s := Swap(h, i, c);
    forall k | 0 < k < |s| && Parent(k) != c
      ensures Below(s, k)
    {
      if k != i && Parent(k) != i { assert Below(h, k); }
    }
    forall k | 0 < k < |s| && Parent(k) == c
      ensures !LessUrgent(s[Parent(c)], s[k])
    {
      assert Below(h, k);
    }
  }

  /** The root is at least as urgent as every entry. */
  lemma {:induction false} RootIsMostUrgent(h: seq<TaskRecord>, k: int)
    requires IsHeap(h) && 0 <= k < |h|
    ensures !LessUrgent(h[0], h[k])
    decreases k
  {
    if k > 0 {
      RootIsMostUrgent(h, Parent(k));
      assert Below(h, k);
    }
  }

  class PriorityQueue {
    var data: seq<TaskRecord>

    ghost predicate Valid()
      reads this
    {
      IsHeap(data)
    }

    constructor ()
      ensures Valid() && data == []
    {
      data := [];
    }

    /** Adds an entry: it enters at the end and moves up past less urgent parents. */
    method Push(r: TaskRecord)
      requires Valid()
      modifies this
      ensures Valid()
      ensures multiset(data) == old(multiset(data)) + multiset{r}
    {
      AppendEntry(data, r);
      data := data + [r];
      var i := |data| - 1;
      while i > 0 && LessUrgent(data[Parent(i)], data[i])
        invariant 0 <= i < |data|
        invariant HeapButUp(data, i)
        invariant multiset(data) == old(multiset(data)) + multiset{r}
      {
        SwapUp(data, i);
        SwapKeepsContents(data, i, Parent(i));
        data := Swap(data, i, Parent(i));
        i := Parent(i);
      }
    }

    /** Removes and returns an entry no other entry is more urgent than. */
    method Pop() returns (top: TaskRecord)
      requires Valid() && data != []
      modifies this
      ensures Valid()
      ensures old(multiset(data)) == multiset{top} + multiset(data)
      ensures top in old(multiset(data))
      ensures forall e :: e in old(multiset(data)) ==> !LessUrgent(top, e)
    {
      top := data[0];
      forall e | e in multiset(data)
        ensures !LessUrgent(top, e)
      {
        var k :| 0 <= k < |data| && data[k] == e;
        RootIsMostUrgent(data, k);
      }
      var last := data[|data| - 1];
      assert data == data[..|data| - 1] + [last];
      if |data| == 1 {
        data := [];
      } else {
        RemoveRoot(data);
        data := [last] + data[1..|data| - 1];
        SiftDown();
      }
    }

    method SiftDown()
      requires data != [] && HeapButDown(data, 0)
      modifies this
      ensures Valid()
      ensures multiset(data) == old(multiset(data))
    {
      var i := 0;
      while 2 * i + 1 < |data| && LessUrgent(data[i], data[UrgentChild(data, i)])
        invariant 0 <= i < |data|
        invariant HeapButDown(data, i)
        invariant multiset(data) == old(multiset(data))
        decreases |data| - i
      {
        SwapDown(data, i);
        var c := UrgentChild(data, i);
        SwapKeepsContents(data, i, c);
        data := Swap(data, i, c);
        i := c;
      }
      ChildrenInOrder(data, i);
    }
  }

  /** The sift stops where the heap order is whole again. */
  lemma ChildrenInOrder(h: seq<TaskRecord>, i: nat)
    requires i < |h| && HeapButDown(h, i)
    requires 2 * i + 1 < |h| ==> !LessUrgent(h[i], h[UrgentChild(h, i)])
    ensures IsHeap(h)
  {
    forall k | 0 < k < |h|
      ensures Below(h, k)
    {
      if Parent(k) == i { assert !LessUrgent(h[UrgentChild(h, i)], h[k]); }
    }
  }

  /** Moving the last entry to the root loses only the old root and disturbs only position 0. */
  lemma RemoveRoot(h: seq<TaskRecord>)
    requires |h| > 1 && IsHeap(h)
    ensures var g := [h[|h| - 1]] + h[1..|h| - 1];
            && HeapButDown(g, 0)
            && multiset(h) == multiset{h[0]} + multiset(g)
  {
    var last := h[|h| - 1];
    var g := [last] + h[1..|h| - 1];
    assert h == [h[0]] + h[1..|h| - 1] + [last];
    forall k | 0 < k < |g| && Parent(k) != 0
      ensures Below(g, k)
    {
      assert Below(h, k);
    }
  }
}
