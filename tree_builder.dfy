/**
 * `makeTreeOrdered` (pkg/huffmanunpack/huffmanunpack.go:83-94): push one leaf
 * per record in file order, then repeatedly pop `a` and `b` and push their
 * join with `a` on the left, until one node remains.
 */
module TreeBuilder {
  import opened Wrappers
  import opened Huffman
  import opened MinHeap

  /** The heap `h` after pushing the leaves of `entries` onto it, in order. */
  function PushLeaves(h: seq<NodeRef>, entries: seq<FreqEntry>): (r: seq<NodeRef>)
    ensures |r| == |h| + |entries|
    decreases |entries|
  {
    if entries == [] then h
    else PushLeaves(HeapPush(h, Leaf(entries[0])), entries[1..])
  }

  /** The merge loop and the final `pop`: Nil for an empty heap. */
  function Combine(h: seq<NodeRef>): Tree
    decreases |h|
  {
    if |h| <= 1 then
      (match HeapPop(h).0 case Some(t) => t case None => Nil)
    else
      var (a, h1) := HeapPop(h);
      var (b, h2) := HeapPop(h1);
      Combine(HeapPush(h2, Join(a.value, b.value)))
  }

  function BuildTree(entries: seq<FreqEntry>): Tree {
    Combine(PushLeaves([], entries))
  }

  /** `makeTreeOrdered`, in place on a `Heap`. */
  method MakeTreeOrdered(entries: seq<FreqEntry>) returns (t: Tree)
    ensures t == BuildTree(entries)
    ensures t.Nil? <==> entries == []
    ensures entries != [] ==> Full(t) && multiset(Leaves(t)) == multiset(entries)
    ensures entries != [] ==> InternalCount(t) == |entries| - 1 && t.f == FreqSum(entries) % U32_MODULUS
  {
    var h := new Heap();
    for i := 0 to |entries|
      invariant PushLeaves(h.arr, entries[i..]) == PushLeaves([], entries)
    {
      assert entries[i..][1..] == entries[i + 1..];
      h.Push(Leaf(entries[i]));
    }
    while h.Size() > 1
      invariant Combine(h.arr) == BuildTree(entries)
      decreases h.Size()
    {
      var a := h.Pop();
      var b := h.Pop();
      h.Push(Join(a.value, b.value));
    }
    var r := h.Pop();
    t := match r case Some(x) => x case None => Nil;
    BuildTreeShape(entries);
  }

  // ---------------------------------------------------------------------
  // Shape of the result

  /** The leaves of a list of trees, tree by tree. */
  function AllLeaves(h: seq<NodeRef>): seq<FreqEntry> {
    if h == [] then [] else Leaves(h[0]) + AllLeaves(h[1..])
  }

  /** Every tree on the heap is full and correctly weighted. */
  ghost predicate GoodForest(h: seq<NodeRef>) {
    forall i :: 0 <= i < |h| ==> Full(h[i]) && Weighted(h[i])
  }

  lemma {:induction false} AllLeavesAppend(s: seq<NodeRef>, t: seq<NodeRef>)
    ensures AllLeaves(s + t) == AllLeaves(s) + AllLeaves(t)
  {
    if s == [] {
      assert s + t == t;
    } else {
      assert (s + t)[1..] == s[1..] + t;
      AllLeavesAppend(s[1..], t);
    }
  }

  /** The leaves of a heap do not depend on the order of its trees. */
  lemma {:induction false} AllLeavesPermutation(s: seq<NodeRef>, t: seq<NodeRef>)
    requires multiset(s) == multiset(t)
    ensures multiset(AllLeaves(s)) == multiset(AllLeaves(t))
    decreases |s|
  {
    if s == [] {
      assert |t| == |multiset(t)| == 0;
    } else {
      assert s[0] in t by {
        assert s[0] in multiset(t);
      }
      var k :| 0 <= k < |t| && t[k] == s[0];
      RemoveHead(s, t, k);
      AllLeavesPermutation(s[1..], t[..k] + t[k + 1..]);
      AllLeavesSplit(t, k);
    }
  }

  lemma AllLeavesSplit(t: seq<NodeRef>, k: nat)
    requires k < |t|
    ensures multiset(AllLeaves(t)) == multiset(AllLeaves(t[..k] + t[k + 1..])) + multiset(Leaves(t[k]))
  {
    var pre, rest := t[..k], t[k..];
    assert t == pre + rest;
    assert rest[1..] == t[k + 1..];
    AllLeavesAppend(pre, rest);
    AllLeavesAppend(pre, t[k + 1..]);
  }

  /** Permuting a heap keeps every tree on it good. */
  lemma GoodForestPermutation(s: seq<NodeRef>, t: seq<NodeRef>)
    requires multiset(s) == multiset(t) && GoodForest(s)
    ensures GoodForest(t)
  {
    forall i | 0 <= i < |t| ensures Full(t[i]) && Weighted(t[i]) {
      assert t[i] in multiset(s);
    }
  }

  lemma AllLeavesSnoc(h: seq<NodeRef>, x: NodeRef)
    ensures multiset(AllLeaves(h + [x])) == multiset(AllLeaves(h)) + multiset(Leaves(x))
  {
    AllLeavesAppend(h, [x]);
    assert AllLeaves([x]) == Leaves(x) + AllLeaves([]);
  }

  /** Pushing a good tree keeps the heap good and adds that tree's leaves. */
  lemma PushForest(h: seq<NodeRef>, x: NodeRef)
    requires GoodForest(h) && Full(x) && Weighted(x)
    ensures GoodForest(HeapPush(h, x))
    ensures multiset(AllLeaves(HeapPush(h, x))) == multiset(AllLeaves(h)) + multiset(Leaves(x))
  {
    var h' := HeapPush(h, x);
    PushMultiset(h, x);
    assert GoodForest(h + [x]) by {
      assert forall i :: 0 <= i < |h| ==> (h + [x])[i] == h[i];
    }
    GoodForestPermutation(h + [x], h');
    AllLeavesPermutation(h', h + [x]);
    AllLeavesSnoc(h, x);
  }

  /** Pushing the leaves of the records keeps the heap good and adds exactly those records as leaves. */
  lemma {:induction false} PushLeavesForest(h: seq<NodeRef>, entries: seq<FreqEntry>)
    requires GoodForest(h)
    ensures GoodForest(PushLeaves(h, entries))
    ensures multiset(AllLeaves(PushLeaves(h, entries))) == multiset(AllLeaves(h)) + multiset(entries)
    decreases |entries|
  {
    if entries != [] {
      var e := entries[0];
      PushForest(h, Leaf(e));
      PushLeavesForest(HeapPush(h, Leaf(e)), entries[1..]);
      assert entries == [e] + entries[1..];
    }
  }

  /** Popping a good heap leaves a good heap and removes the popped tree's leaves. */
  lemma PopForest(h: seq<NodeRef>)
    requires |h| > 0 && GoodForest(h)
    ensures Full(h[0]) && Weighted(h[0]) && GoodForest(HeapPop(h).1)
    ensures multiset(AllLeaves(h)) == multiset(AllLeaves(HeapPop(h).1)) + multiset(Leaves(h[0]))
  {
    var rest := HeapPop(h).1;
    PopMultiset(h);
    assert multiset(h) == multiset(rest + [h[0]]);
    GoodForestPermutation(h, rest + [h[0]]);
    assert GoodForest(rest) by {
      assert forall i :: 0 <= i < |rest| ==> (rest + [h[0]])[i] == rest[i];
    }
    AllLeavesPermutation(h, rest + [h[0]]);
    AllLeavesSnoc(rest, h[0]);
  }

  /** One round of the merge loop keeps the heap good and its leaves unchanged. */
  lemma MergeStep(h: seq<NodeRef>)
    requires |h| >= 2 && GoodForest(h)
    ensures var h1 := HeapPop(h).1;
            var h2 := HeapPop(h1).1;
            var h3 := HeapPush(h2, Join(h[0], h1[0]));
            GoodForest(h3) && multiset(AllLeaves(h3)) == multiset(AllLeaves(h)) && |h3| == |h| - 1
  {
    var h1 := HeapPop(h).1;
    PopForest(h);
    var h2 := HeapPop(h1).1;
    PopForest(h1);
    JoinWeighted(h[0], h1[0]);
    PushForest(h2, Join(h[0], h1[0]));
  }

  /** The merge loop turns a non-empty heap of good trees into one good tree holding all their leaves. */
  lemma {:induction false} CombineShape(h: seq<NodeRef>)
    requires |h| >= 1 && GoodForest(h)
    ensures Combine(h).Node? && Full(Combine(h)) && Weighted(Combine(h))
    ensures multiset(Leaves(Combine(h))) == multiset(AllLeaves(h))
    decreases |h|
  {
    if |h| == 1 {
      assert AllLeaves(h) == Leaves(h[0]) + AllLeaves([]);
    } else {
      MergeStep(h);
      var h1 := HeapPop(h).1;
      CombineShape(HeapPush(HeapPop(h1).1, Join(h[0], h1[0])));
    }
  }

  /**
   * On no records the builder returns nil; otherwise a full tree whose leaves
   * are exactly the records (duplicates kept), with one internal node fewer
   * than records and the uint32 sum of all counts at the root.
   */
  lemma BuildTreeShape(entries: seq<FreqEntry>)
    ensures BuildTree(entries).Nil? <==> entries == []
    ensures entries != [] ==> Full(BuildTree(entries))
    ensures entries != [] ==> multiset(Leaves(BuildTree(entries))) == multiset(entries)
    ensures entries != [] ==> InternalCount(BuildTree(entries)) == |entries| - 1
    ensures entries != [] ==> BuildTree(entries).f == FreqSum(entries) % U32_MODULUS
  {
    if entries != [] {
      var t := BuildTree(entries);
      PushLeavesForest([], entries);
      CombineShape(PushLeaves([], entries));
      FullInternalCount(t);
      assert |Leaves(t)| == |multiset(Leaves(t))| == |multiset(entries)| == |entries|;
      FreqSumPermutation(Leaves(t), entries);
    }
  }

  /** Two or more records give a root with children, so decoding consumes bits. */
  lemma BuildTreeInternal(entries: seq<FreqEntry>)
    requires |entries| >= 2
    ensures BuildTree(entries).Node? && !IsLeaf(BuildTree(entries))
  {
    BuildTreeShape(entries);
  }
}
