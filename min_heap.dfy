/**
 * The array-backed min-heap of the tree builder
 * (pkg/huffmanunpack/huffmanunpack.go:24-80). It orders nodes by count only;
 * sift-up stops on `parent <= child`, sift-down prefers the right child only
 * when it is strictly smaller. The pure functions below are the specification
 * of the class `Heap`, whose methods do the same work in place.
 */
module MinHeap {
  import opened Wrappers
  import opened Huffman

  /** Go `le`: compares counts only. */
  predicate Le(a: NodeRef, b: NodeRef) {
    a.f <= b.f
  }

  /** Go `lt`: compares counts only. */
  predicate Lt(a: NodeRef, b: NodeRef) {
    a.f < b.f
  }

  /**
   * The parent index computed by `push`. Go's integer division truncates
   * toward zero, so for i == 0 the source computes (0 - 1) / 2 == 0.
   */
  function Parent(i: nat): nat {
    if i == 0 then 0 else (i - 1) / 2
  }

  /** Every node's count is at least its parent's. */
  ghost predicate IsHeap(a: seq<NodeRef>) {
    forall i :: 0 < i < |a| ==> a[Parent(i)].f <= a[i].f
  }

  function Swap(a: seq<NodeRef>, i: nat, j: nat): seq<NodeRef>
    requires i < |a| && j < |a|
  {
    a[i := a[j]][j := a[i]]
  }

  /** The sift-up loop of `push`, starting at index i. */
  function SiftUp(a: seq<NodeRef>, i: nat): (r: seq<NodeRef>)
    requires i < |a|
    ensures |r| == |a|
    decreases i
  {
    var p := Parent(i);
    if Le(a[p], a[i]) then a
    else
      var a' := Swap(a, p, i);
      if p <= 0 then a' else SiftUp(a', p)
  }

  /** `push`: append, then sift up from the last index. */
  function HeapPush(a: seq<NodeRef>, n: NodeRef): (r: seq<NodeRef>)
    ensures |r| == |a| + 1
  {
    SiftUp(a + [n], |a|)
  }

  /** The child of k that sift-down compares against: the right one only when strictly smaller. */
  function SmallerChild(a: seq<NodeRef>, k: nat): (c: nat)
    requires 2 * k + 1 < |a|
    ensures c < |a| && Parent(c) == k
  {
    var child := 2 * k + 1;
    if child + 1 < |a| && Lt(a[child + 1], a[child]) then child + 1 else child
  }

  /** The sift-down loop of `pop`, starting at index k. */
  function SiftDown(a: seq<NodeRef>, k: nat): (r: seq<NodeRef>)
    requires k < |a|
    ensures |r| == |a|
    decreases |a| - k
  {
    if 2 * k + 1 >= |a| then a
    else
      var c := SmallerChild(a, k);
      if Le(a[k], a[c]) then a
      else SiftDown(Swap(a, k, c), c)
  }

  /**
   * `pop`: None on an empty heap; otherwise the old first element, with the
   * last element moved to the front and sifted down.
   */
  function HeapPop(a: seq<NodeRef>): (r: (Option<NodeRef>, seq<NodeRef>))
    ensures |a| == 0 ==> r == (None, a)
    ensures |a| > 0 ==> r.0 == Some(a[0]) && |r.1| == |a| - 1
  {
    if |a| == 0 then (None, a)
    else
      var rest := a[..|a| - 1];
      if |rest| == 0 then (Some(a[0]), rest)
      else
        (Some(a[0]), SiftDown(rest[0 := a[|a| - 1]], 0))
  }

  // ---------------------------------------------------------------------
  // Multiset preservation

  lemma SwapMultiset(a: seq<NodeRef>, i: nat, j: nat)
    requires i < |a| && j < |a|
    ensures multiset(Swap(a, i, j)) == multiset(a)
  {
    var b := a[i := a[j]];
    assert multiset(b) == multiset(a) - multiset{a[i]} + multiset{a[j]};
    assert multiset(b[j := a[i]]) == multiset(b) - multiset{b[j]} + multiset{a[i]};
  }

  lemma {:induction false} SiftUpMultiset(a: seq<NodeRef>, i: nat)
    requires i < |a|
    ensures multiset(SiftUp(a, i)) == multiset(a)
    decreases i
  {
    var p := Parent(i);
    if !Le(a[p], a[i]) {
      SwapMultiset(a, p, i);
      if p > 0 {
        SiftUpMultiset(Swap(a, p, i), p);
      }
    }
  }

  lemma {:induction false} SiftDownMultiset(a: seq<NodeRef>, k: nat)
    requires k < |a|
    ensures multiset(SiftDown(a, k)) == multiset(a)
    decreases |a| - k
  {
    if 2 * k + 1 < |a| {
      var c := SmallerChild(a, k);
      if !Le(a[k], a[c]) {
        SwapMultiset(a, k, c);
        SiftDownMultiset(Swap(a, k, c), c);
      }
    }
  }

  /** `push` adds exactly the pushed node. */
  lemma PushMultiset(a: seq<NodeRef>, n: NodeRef)
    ensures multiset(HeapPush(a, n)) == multiset(a) + multiset{n}
  {
    SiftUpMultiset(a + [n], |a|);
  }

  /** `pop` on a non-empty heap removes exactly the node it returns. */
  lemma PopMultiset(a: seq<NodeRef>)
    requires |a| > 0
    ensures multiset(HeapPop(a).1) + multiset{a[0]} == multiset(a)
  {
    var n := |a|;
    if n > 1 {
      var rest := a[..n - 1];
      assert a == [a[0]] + a[1..n - 1] + [a[n - 1]];
      assert rest == [a[0]] + a[1..n - 1];
      assert rest[0 := a[n - 1]] == [a[n - 1]] + a[1..n - 1];
      SiftDownMultiset(rest[0 := a[n - 1]], 0);
    } else {
      assert a == [a[0]];
    }
  }

  // ---------------------------------------------------------------------
  // The heap property

  /** The root of a heap has the smallest count. */
  lemma {:induction false} HeapRootMin(a: seq<NodeRef>, j: nat)
    requires IsHeap(a) && j < |a|
    ensures a[0].f <= a[j].f
    decreases j
  {
    if j > 0 {
      HeapRootMin(a, Parent(j));
    }
  }

  /**
   * Sift-up invariant: the heap property holds everywhere except between
   * position i and its parent, and i's parent is no larger than i's children.
   */
  ghost predicate UpInv(a: seq<NodeRef>, i: nat) {
    && i < |a|
    && (forall j :: 0 < j < |a| && j != i ==> a[Parent(j)].f <= a[j].f)
    && (i > 0 ==> forall j :: 0 < j < |a| && Parent(j) == i ==> a[Parent(i)].f <= a[j].f)
  }

  lemma {:induction false} SiftUpHeap(a: seq<NodeRef>, i: nat)
    requires UpInv(a, i)
    ensures IsHeap(SiftUp(a, i))
    decreases i
  {
    var p := Parent(i);
    if !Le(a[p], a[i]) {
      var b := Swap(a, p, i);
      assert i > 0;
      forall j | 0 < j < |b| && j != p
        ensures b[Parent(j)].f <= b[j].f
      {
        if j == i {
        } else if Parent(j) == i {
          assert b[Parent(j)] == a[p];
        } else if Parent(j) == p {
          assert a[Parent(j)] == a[p];
        } else if j != p {
          assert b[j] == a[j];
          assert b[Parent(j)] == a[Parent(j)];
        }
      }
      if p > 0 {
        forall j | 0 < j < |b| && Parent(j) == p
          ensures b[Parent(p)].f <= b[j].f
        {
          assert b[Parent(p)] == a[Parent(p)];
          assert a[Parent(p)].f <= a[p].f;
          if j != i {
            assert b[j] == a[j];
          }
        }
        SiftUpHeap(b, p);
      }
    }
  }

  /** `push` keeps the heap property. */
  lemma PushKeepsHeap(a: seq<NodeRef>, n: NodeRef)
    requires IsHeap(a)
    ensures IsHeap(HeapPush(a, n))
  {
    var b := a + [n];
    var i := |a|;
    assert forall j :: 0 < j < |b| && j != i ==> b[j] == a[j] && b[Parent(j)] == a[Parent(j)];
    assert forall j :: 0 < j < |b| ==> Parent(j) < j;
    SiftUpHeap(b, i);
  }

  /**
   * Sift-down invariant: the heap property holds everywhere except between
   * position k and its children, and k's parent is no larger than k's children.
   */
  ghost predicate DownInv(a: seq<NodeRef>, k: nat) {
    && k < |a|
    && (forall j :: 0 < j < |a| && Parent(j) != k ==> a[Parent(j)].f <= a[j].f)
    && (k > 0 ==> forall j :: 0 < j < |a| && Parent(j) == k ==> a[Parent(k)].f <= a[j].f)
  }

  lemma {:induction false} SiftDownHeap(a: seq<NodeRef>, k: nat)
    requires DownInv(a, k)
    ensures IsHeap(SiftDown(a, k))
    decreases |a| - k
  {
    if 2 * k + 1 >= |a| {
      LeafSettled(a, k);
    } else {
      var c := SmallerChild(a, k);
      SmallerChildMin(a, k);
      if Le(a[k], a[c]) {
        DownInvSettled(a, k, c);
      } else {
        SiftDownStep(a, k, c);
        SiftDownHeap(Swap(a, k, c), c);
      }
    }
  }

  /** The only positions whose parent is k are 2k+1 and 2k+2. */
  lemma ChildIndex(j: nat, k: nat)
    requires 0 < j && Parent(j) == k
    ensures j == 2 * k + 1 || j == 2 * k + 2
  {
  }

  /** The child chosen by sift-down has the smallest count among k's children. */
  lemma SmallerChildMin(a: seq<NodeRef>, k: nat)
    requires 2 * k + 1 < |a|
    ensures forall j :: 0 < j < |a| && Parent(j) == k ==> a[SmallerChild(a, k)].f <= a[j].f
  {
    forall j | 0 < j < |a| && Parent(j) == k ensures a[SmallerChild(a, k)].f <= a[j].f {
      ChildIndex(j, k);
    }
  }

  /** A position without children has nothing left to sift. */
  lemma LeafSettled(a: seq<NodeRef>, k: nat)
    requires DownInv(a, k) && 2 * k + 1 >= |a|
    ensures IsHeap(a)
  {
    forall j | 0 < j < |a| ensures a[Parent(j)].f <= a[j].f {
      assert 2 * Parent(j) + 1 <= j;
    }
  }

  /** Sift-down may stop once k is no larger than its smallest child c. */
  lemma DownInvSettled(a: seq<NodeRef>, k: nat, c: nat)
    requires DownInv(a, k) && c < |a| && a[k].f <= a[c].f
    requires forall j :: 0 < j < |a| && Parent(j) == k ==> a[c].f <= a[j].f
    ensures IsHeap(a)
  {
  }

  /** Swapping k with its smaller child moves the defect down to that child. */
  lemma SiftDownStep(a: seq<NodeRef>, k: nat, c: nat)
    requires DownInv(a, k) && c < |a| && 0 < c && Parent(c) == k
    requires a[c].f < a[k].f
    requires forall j :: 0 < j < |a| && Parent(j) == k ==> a[c].f <= a[j].f
    ensures DownInv(Swap(a, k, c), c)
  {
    var b := Swap(a, k, c);
    forall j | 0 < j < |b| && Parent(j) != c
      ensures b[Parent(j)].f <= b[j].f
    {
      if j == c {
      } else if Parent(j) == k {
        assert b[j] == a[j];
      } else if j == k {
        assert b[Parent(j)] == a[Parent(k)];
      } else {
        assert b[j] == a[j];
        assert b[Parent(j)] == a[Parent(j)];
      }
    }
    forall j | 0 < j < |b| && Parent(j) == c
      ensures b[Parent(c)].f <= b[j].f
    {
      assert j != k && j != c;
      assert b[j] == a[j];
      assert a[Parent(j)].f <= a[j].f;
    }
  }

  /** `pop` keeps the heap property of what remains. */
  lemma PopKeepsHeap(a: seq<NodeRef>)
    requires IsHeap(a)
    ensures IsHeap(HeapPop(a).1)
  {
    var n := |a|;
    if n > 1 {
      var b := a[..n - 1][0 := a[n - 1]];
      forall j | 0 < j < |b| && Parent(j) != 0
        ensures b[Parent(j)].f <= b[j].f
      {
        assert b[j] == a[j] && b[Parent(j)] == a[Parent(j)];
      }
      SiftDownHeap(b, 0);
    }
  }

  /** `pop` returns an element of smallest count. */
  lemma PopReturnsMin(a: seq<NodeRef>)
    requires IsHeap(a) && |a| > 0
    ensures HeapPop(a).0.Some?
    ensures forall j :: 0 <= j < |a| ==> HeapPop(a).0.value.f <= a[j].f
  {
    forall j | 0 <= j < |a| ensures a[0].f <= a[j].f {
      HeapRootMin(a, j);
    }
  }

  /**
   * Equal counts do not pop in insertion order: pushing A, B, C with the same
   * count and popping three times yields A, C, B, because `pop` moves the last
   * element to the front and sift-down stops on a tie.
   */
  lemma TiesPopOutOfInsertionOrder()
    ensures var a, b, c := Node(65, 5, Nil, Nil), Node(66, 5, Nil, Nil), Node(67, 5, Nil, Nil);
            var h := HeapPush(HeapPush(HeapPush([], a), b), c);
            var (x, h1) := HeapPop(h);
            var (y, h2) := HeapPop(h1);
            var (z, h3) := HeapPop(h2);
            x == Some(a) && y == Some(c) && z == Some(b) && h3 == []
  {
    var a, b, c := Node(65, 5, Nil, Nil), Node(66, 5, Nil, Nil), Node(67, 5, Nil, Nil);
    assert HeapPush([], a) == [a];
    assert HeapPush([a], b) == [a, b];
    assert HeapPush([a, b], c) == [a, b, c];
    assert [a, b, c][..2][0 := c] == [c, b];
    assert HeapPop([a, b, c]) == (Some(a), [c, b]);
    assert [c, b][..1][0 := b] == [b];
    assert HeapPop([c, b]) == (Some(c), [b]);
  }

  /** `MinHeap` of the source: the backing slice is `arr`. */
  class Heap {
    var arr: seq<NodeRef>

    constructor ()
      ensures arr == []
    {
      arr := [];
    }

    function Size(): nat
      reads this
    {
      |arr|
    }

    /** `push`: append `n`, then swap it upward while its parent's count is larger. */
    method Push(n: NodeRef)
      modifies this
      ensures arr == HeapPush(old(arr), n)
      ensures multiset(arr) == multiset(old(arr)) + multiset{n}
      ensures IsHeap(old(arr)) ==> IsHeap(arr)
    {
      PushMultiset(arr, n);
      if IsHeap(arr) {
        PushKeepsHeap(arr, n);
      }
      ghost var goal := HeapPush(arr, n);
      arr := arr + [n];
      var i: nat := |arr| - 1;
      while true
        invariant i < |arr|
        invariant SiftUp(arr, i) == goal
        decreases i
      {
        var parent := Parent(i);
        if Le(arr[parent], arr[i]) {
          return;
        }
        arr := arr[parent := arr[i]][i := arr[parent]];
        i := parent;
        if i <= 0 {
          return;
        }
      }
    }

    /**
     * The `push` of the map-based copy of the decoder: it returns as soon as
     * the index reaches the root, before computing a parent, so it never
     * compares a node with itself. The result is the same.
     */
    method PushGuarded(n: NodeRef)
      modifies this
      ensures arr == HeapPush(old(arr), n)
    {
      ghost var goal := HeapPush(arr, n);
      arr := arr + [n];
      var childIdx: nat := |arr| - 1;
      while true
        invariant childIdx < |arr|
        invariant SiftUp(arr, childIdx) == goal
        decreases childIdx
      {
        if childIdx <= 0 {
          return;
        }
        var parentIdx := (childIdx - 1) / 2;
        if Le(arr[parentIdx], arr[childIdx]) {
          return;
        }
        arr := arr[parentIdx := arr[childIdx]][childIdx := arr[parentIdx]];
        childIdx := parentIdx;
        if childIdx <= 0 {
          return;
        }
      }
    }

    /**
     * `pop`: None on an empty heap; otherwise the first element, after moving
     * the last element to the front and sifting it down.
     */
    method Pop() returns (r: Option<NodeRef>)
      modifies this
      ensures (r, arr) == HeapPop(old(arr))
    {
      if |arr| == 0 {
        return None;
      }
      ghost var goal := HeapPop(arr).1;
      var out := arr[0];
      var last := arr[|arr| - 1];
      arr := arr[..|arr| - 1];
      if |arr| == 0 {
        return Some(out);
      }
      arr := arr[0 := last];
      var parent := 0;
      var child := 2 * parent + 1;
      while child < |arr|
        invariant parent < |arr| && child == 2 * parent + 1
        invariant SiftDown(arr, parent) == goal
        decreases |arr| - parent
      {
        if child + 1 < |arr| && Lt(arr[child + 1], arr[child]) {
          child := child + 1;
        }
        assert child == SmallerChild(arr, parent);
        if Le(arr[parent], arr[child]) {
          return Some(out);
        }
        arr := arr[parent := arr[child]][child := arr[parent]];
        parent := child;
        child := 2 * child + 1;
      }
      return Some(out);
    }
  }
}
