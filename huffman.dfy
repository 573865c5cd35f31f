/**
 * The data model shared by the Huffman decompressor: bytes, 32-bit counts,
 * frequency records, tree nodes and the ways unpacking can fail
 * (pkg/huffmanunpack/huffmanunpack.go).
 */
module Huffman {

  /** Go `byte`. */
  type byte = x: int | 0 <= x < 256

  const U32_MODULUS: int := 0x1_0000_0000

  /** Go `uint32`. */
  type u32 = x: int | 0 <= x < 0x1_0000_0000

  /** One record of the frequency table: symbol byte and its count. */
  datatype FreqEntry = FreqEntry(c: byte, f: u32)

  /**
   * A `*Node` of the source: `Nil` is the nil pointer. Children are owned by
   * their parent, so a value of this type is a tree without sharing.
   */
  datatype Tree = Nil | Node(c: byte, f: u32, left: Tree, right: Tree)

  /** A non-nil node: what the heap holds. */
  type NodeRef = t: Tree | t.Node? witness Node(0, 0, Nil, Nil)

  /** The decoder's leaf test: both children nil. */
  predicate IsLeaf(t: NodeRef) {
    t.left.Nil? && t.right.Nil?
  }

  /** The leaf the tree builder pushes for one record. */
  function Leaf(e: FreqEntry): (t: NodeRef)
    ensures IsLeaf(t) && Leaves(t) == [e]
  {
    Node(e.c, e.f, Nil, Nil)
  }

  /** The internal node the tree builder pushes: symbol byte left at its zero value, uint32 sum. */
  function Join(a: NodeRef, b: NodeRef): (t: NodeRef)
    ensures !IsLeaf(t) && t.left == a && t.right == b
    ensures Leaves(t) == Leaves(a) + Leaves(b)
  {
    Node(0, (a.f + b.f) % U32_MODULUS, a, b)
  }

  /** Every node is a leaf or has two non-nil children. */
  predicate Full(t: Tree) {
    match t
    case Nil => false
    case Node(_, _, l, r) => (l.Nil? && r.Nil?) || (Full(l) && Full(r))
  }

  /** The leaves of a tree, left to right, as the records they came from. */
  function Leaves(t: Tree): seq<FreqEntry> {
    match t
    case Nil => []
    case Node(c, f, l, r) =>
      if l.Nil? && r.Nil? then [FreqEntry(c, f)] else Leaves(l) + Leaves(r)
  }

  /** Number of nodes that are not leaves. */
  function InternalCount(t: Tree): nat {
    match t
    case Nil => 0
    case Node(_, _, l, r) =>
      if l.Nil? && r.Nil? then 0 else 1 + InternalCount(l) + InternalCount(r)
  }

  /** Sum of the counts of a list of records, without wrap-around. */
  function FreqSum(s: seq<FreqEntry>): nat {
    if s == [] then 0 else s[0].f + FreqSum(s[1..])
  }

  /** Every node's count is the uint32 sum of the counts of its leaves. */
  predicate Weighted(t: Tree) {
    match t
    case Nil => true
    case Node(_, f, l, r) => f == FreqSum(Leaves(t)) % U32_MODULUS && Weighted(l) && Weighted(r)
  }

  /** The ways unpacking can end without a result. */
  datatype Failure =
    | ShortRead                            // the byte source ran out (header, records, trailer or payload)
    | EmptyFrequencyTable                  // the table has no records, so there is no tree
    | EmptyTree                            // decode was handed a nil tree
    | StreamExhausted(partial: seq<byte>)  // the bit budget ran out in the middle of a symbol
    | DeadEnd(partial: seq<byte>)          // a bit selected a nil child
    | IndexOutOfRange                      // Go runtime panic: a bit index past the end of the payload
    | NeverReturns                         // the decode loop cannot make progress and spins forever
    | BitCountTooLarge                     // the declared bit count exceeds the payload (checked unpacking only)

  lemma {:induction false} FreqSumAppend(s: seq<FreqEntry>, t: seq<FreqEntry>)
    ensures FreqSum(s + t) == FreqSum(s) + FreqSum(t)
  {
    if s == [] {
      assert s + t == t;
    } else {
      assert (s + t)[1..] == s[1..] + t;
      FreqSumAppend(s[1..], t);
    }
  }

  /** A full tree with n leaves has n - 1 internal nodes. */
  lemma {:induction false} FullInternalCount(t: Tree)
    requires Full(t)
    ensures |Leaves(t)| >= 1 && InternalCount(t) == |Leaves(t)| - 1
  {
    if !(t.left.Nil? && t.right.Nil?) {
      FullInternalCount(t.left);
      FullInternalCount(t.right);
    }
  }

  /** The counts of joined trees add up modulo 2^32. */
  lemma JoinWeighted(a: NodeRef, b: NodeRef)
    requires Weighted(a) && Weighted(b)
    ensures Weighted(Join(a, b))
  {
    JoinCount(a, b);
  }

  lemma JoinCount(a: NodeRef, b: NodeRef)
    requires a.f == FreqSum(Leaves(a)) % U32_MODULUS && b.f == FreqSum(Leaves(b)) % U32_MODULUS
    ensures Join(a, b).f == FreqSum(Leaves(Join(a, b))) % U32_MODULUS
  {
    var la, lb := Leaves(a), Leaves(b);
    FreqSumAppend(la, lb);
    ModSumOfParts(FreqSum(la), FreqSum(lb), a.f, b.f);
  }

  /** Counts reduced modulo 2^32 add up to the reduced sum. */
  lemma ModSumOfParts(x: nat, y: nat, p: int, q: int)
    requires p == x % U32_MODULUS && q == y % U32_MODULUS
    ensures (p + q) % U32_MODULUS == (x + y) % U32_MODULUS
  {
    ModAddLemma(x, y);
  }

  lemma ModAddLemma(x: nat, y: nat)
    ensures (x % U32_MODULUS + y % U32_MODULUS) % U32_MODULUS == (x + y) % U32_MODULUS
  {
    var qx, qy := x / U32_MODULUS, y / U32_MODULUS;
    var rx, ry := x % U32_MODULUS, y % U32_MODULUS;
    assert x + y == (qx + qy) * U32_MODULUS + (rx + ry);
    ModShift(qx + qy, rx + ry);
  }

  lemma ModShift(k: nat, r: nat)
    ensures (k * U32_MODULUS + r) % U32_MODULUS == r % U32_MODULUS
  {
    if k > 0 {
      ModShift(k - 1, r);
      assert k * U32_MODULUS + r == (k - 1) * U32_MODULUS + r + U32_MODULUS;
    }
  }

  /** The sum of counts does not depend on the order of the records. */
  lemma {:induction false} FreqSumPermutation(s: seq<FreqEntry>, t: seq<FreqEntry>)
    requires multiset(s) == multiset(t)
    ensures FreqSum(s) == FreqSum(t)
    decreases |s|
  {
    if s == [] {
      assert |t| == |multiset(t)| == 0;
    } else {
      assert s[0] in t by {
        assert s[0] in multiset(t);
      }
      var k :| 0 <= k < |t| && t[k] == s[0];
      var rest := t[..k] + t[k + 1..];
      RemoveHead(s, t, k);
      FreqSumPermutation(s[1..], rest);
      FreqSumSplit(t, k);
    }
  }

  lemma FreqSumSplit(t: seq<FreqEntry>, k: nat)
    requires k < |t|
    ensures FreqSum(t) == FreqSum(t[..k] + t[k + 1..]) + t[k].f
  {
    var a, m, b := t[..k], t[k..], t[k + 1..];
    assert t == a + m;
    FreqSumAppend(a, m);
    assert m[0] == t[k] && m[1..] == b;
    assert FreqSum(m) == t[k].f + FreqSum(b);
    FreqSumAppend(a, b);
  }

  /** Matching the head of s with position k of t leaves two permutations of each other. */
  lemma RemoveHead<T>(s: seq<T>, t: seq<T>, k: nat)
    requires multiset(s) == multiset(t) && s != [] && k < |t| && t[k] == s[0]
    ensures multiset(s[1..]) == multiset(t[..k] + t[k + 1..])
  {
    RemoveAt(t, k);
    assert multiset(s) == multiset{s[0]} + multiset(s[1..]) by {
      assert s == [s[0]] + s[1..];
    }
  }

  /** Dropping position k of a sequence drops one occurrence of its element. */
  lemma RemoveAt<T>(t: seq<T>, k: nat)
    requires k < |t|
    ensures multiset(t[..k] + t[k + 1..]) == multiset(t) - multiset{t[k]}
  {
    var rest := t[k..];
    assert t == t[..k] + rest;
    assert rest == [t[k]] + t[k + 1..];
  }
}
