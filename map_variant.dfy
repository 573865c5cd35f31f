/**
 * The map-based copy of the decoder (_test_proj/huffmanunpack/huffmanunpack.go).
 * Its `getFreqs` stores the records in a `map[byte]uint32`, so a later record
 * overwrites an earlier one with the same symbol, and its `makeTree` pushes
 * the leaves in the map's iteration order, which Go leaves unspecified. The
 * model makes that order an explicit choice: a sequence listing every key
 * once. Decoding and bit reading are the same as in the ordered decoder.
 */
module MapVariant {
  import opened Wrappers
  import opened Huffman
  import opened MinHeap
  import opened TreeBuilder
  import opened BitStream
  import opened Decoder
  import opened Container

  // ---------------------------------------------------------------------
  // The frequency map

  /** The map `getFreqs` builds: each record overwrites its symbol's count. */
  function RecordsMap(entries: seq<FreqEntry>): map<byte, u32>
    decreases |entries|
  {
    if entries == [] then map[]
    else
      var e := entries[|entries| - 1];
      RecordsMap(entries[..|entries| - 1])[e.c := e.f]
  }

  /** The map has a key exactly for the symbols that some record carries. */
  lemma {:induction false} RecordsMapKeys(entries: seq<FreqEntry>, c: byte)
    ensures c in RecordsMap(entries) <==> exists i :: 0 <= i < |entries| && entries[i].c == c
    decreases |entries|
  {
    if entries != [] {
      var init := entries[..|entries| - 1];
      RecordsMapKeys(init, c);
      if exists i :: 0 <= i < |init| && init[i].c == c {
        var i :| 0 <= i < |init| && init[i].c == c;
        assert entries[i].c == c;
      }
      if exists i :: 0 <= i < |entries| && entries[i].c == c {
        var i :| 0 <= i < |entries| && entries[i].c == c;
        if i < |init| {
          assert init[i].c == c;
        }
      }
    }
  }

  /** The count stored for a symbol is the one of its last record. */
  lemma {:induction false} RecordsMapLastWins(entries: seq<FreqEntry>, i: nat)
    requires i < |entries|
    requires forall j :: i < j < |entries| ==> entries[j].c != entries[i].c
    ensures entries[i].c in RecordsMap(entries) && RecordsMap(entries)[entries[i].c] == entries[i].f
    decreases |entries|
  {
    var init := entries[..|entries| - 1];
    if i < |init| {
      assert forall j :: i < j < |init| ==> init[j] == entries[j];
      RecordsMapLastWins(init, i);
      assert init[i] == entries[i];
    }
  }

  /** `getFreqs` from pos: the map and the cursor after the table. */
  function ParseFreqMap(data: seq<byte>, pos: nat): Result<(map<byte, u32>, nat), Failure> {
    var table :- ParseTable(data, pos);
    Ok((RecordsMap(table.0), table.1))
  }

  /** `getFreqs`: the header words, then a counted loop storing each record in the map. */
  method GetFreqs(r: ByteReader) returns (res: Result<map<byte, u32>, Failure>)
    modifies r
    ensures ParseFreqMap(r.data, old(r.pos)) == WithPos(res, r.pos)
  {
    var fileLen :- r.ReadU32();
    var always0 :- r.ReadU32();
    var charsCount :- r.ReadU32();
    ghost var start := r.pos;
    ghost var entries: seq<FreqEntry> := [];
    var freqs: map<byte, u32> := map[];
    var i := 0;
    while i < charsCount
      invariant i <= charsCount
      invariant freqs == RecordsMap(entries)
      invariant RecordsFrom(r.data, r.pos, charsCount - i, entries) == RecordsFrom(r.data, start, charsCount, [])
      decreases charsCount - i
    {
      var e :- ReadRecord(r);
      freqs := freqs[e.c := e.f];
      assert (entries + [e])[..|entries|] == entries;
      entries := entries + [e];
      i := i + 1;
    }
    return Ok(freqs);
  }

  // ---------------------------------------------------------------------
  // Iteration order and the tree

  /** `order` lists every key of the map exactly once: one order a `range` over it may take. */
  ghost predicate IsIterationOrder(freqs: map<byte, u32>, order: seq<byte>) {
    && (forall i, j :: 0 <= i < j < |order| ==> order[i] != order[j])
    && (forall c :: c in freqs <==> c in order)
  }

  /** The leaves `makeTree` pushes when the `range` visits the keys in `order`. */
  function MapEntries(freqs: map<byte, u32>, order: seq<byte>): seq<FreqEntry>
    decreases |order|
  {
    if order == [] then []
    else
      var c := order[|order| - 1];
      MapEntries(freqs, order[..|order| - 1]) + (if c in freqs then [FreqEntry(c, freqs[c])] else [])
  }

  /** No two records carry the same symbol. */
  predicate DistinctSymbols(es: seq<FreqEntry>) {
    forall i, j :: 0 <= i < j < |es| ==> es[i].c != es[j].c
  }

  /** The pushed leaves are exactly the map's entries, one per visited key. */
  lemma {:induction false} MapEntriesOf(freqs: map<byte, u32>, order: seq<byte>)
    ensures forall e :: e in MapEntries(freqs, order) <==> e.c in order && e.c in freqs && e.f == freqs[e.c]
    ensures (forall i, j :: 0 <= i < j < |order| ==> order[i] != order[j]) ==> DistinctSymbols(MapEntries(freqs, order))
    ensures freqs == map[] ==> MapEntries(freqs, order) == []
    decreases |order|
  {
    if order != [] {
      var init := order[..|order| - 1];
      var c := order[|order| - 1];
      MapEntriesOf(freqs, init);
      assert order == init + [c];
      var es := MapEntries(freqs, init);
      if forall i, j :: 0 <= i < j < |order| ==> order[i] != order[j] {
        assert forall i, j :: 0 <= i < j < |init| ==> init[i] != init[j] by {
          forall i, j | 0 <= i < j < |init| ensures init[i] != init[j] {
            assert init[i] == order[i] && init[j] == order[j];
          }
        }
        assert c !in init by {
          forall i | 0 <= i < |init| ensures init[i] != c {
            assert init[i] == order[i];
          }
        }
      }
    }
  }

  /** Pushing one more leaf after a run of leaves. */
  lemma {:induction false} PushLeavesSnoc(h: seq<NodeRef>, es: seq<FreqEntry>, e: FreqEntry)
    ensures PushLeaves(h, es + [e]) == HeapPush(PushLeaves(h, es), Leaf(e))
    decreases |es|
  {
    if es == [] {
      assert [e][1..] == [];
    } else {
      assert (es + [e])[1..] == es[1..] + [e];
      PushLeavesSnoc(HeapPush(h, Leaf(es[0])), es[1..], e);
    }
  }

  /**
   * `makeTree`: one leaf per key in the order the `range` picks, then the
   * same merge loop as the ordered builder. The order is returned as a ghost.
   */
  method MakeTree(freqs: map<byte, u32>) returns (t: Tree, ghost order: seq<byte>)
    ensures IsIterationOrder(freqs, order)
    ensures t == BuildTree(MapEntries(freqs, order))
  {
    var h := new Heap();
    var keys := freqs.Keys;
    order := [];
    while keys != {}
      invariant forall c :: c in freqs <==> c in keys || c in order
      invariant forall c :: c in keys ==> c !in order
      invariant forall i, j :: 0 <= i < j < |order| ==> order[i] != order[j]
      invariant h.arr == PushLeaves([], MapEntries(freqs, order))
      decreases |keys|
    {
      var c :| c in keys;
      var e := FreqEntry(c, freqs[c]);
      PushLeavesSnoc([], MapEntries(freqs, order), e);
      h.PushGuarded(Leaf(e));
      assert (order + [c])[..|order|] == order;
      keys := keys - {c};
      order := order + [c];
    }
    while h.Size() > 1
      invariant Combine(h.arr) == BuildTree(MapEntries(freqs, order))
      decreases h.Size()
    {
      var a := h.Pop();
      var b := h.Pop();
      h.PushGuarded(Join(a.value, b.value));
    }
    var r := h.Pop();
    t := match r case Some(x) => x case None => Nil;
  }

  // ---------------------------------------------------------------------
  // What the tree does and does not depend on

  /** A record occurring at two positions is counted twice. */
  lemma TwiceCounted<T>(s: seq<T>, i: nat, j: nat)
    requires i < j < |s|
    ensures s[i] == s[j] ==> multiset(s)[s[i]] >= 2
  {
    assert s == s[..j] + [s[j]] + s[j + 1..];
    assert s[..j][i] == s[i];
  }

  /** With distinct symbols, a symbol identifies its record. */
  lemma SymbolIdentifies(s: seq<FreqEntry>, x: FreqEntry, y: FreqEntry)
    requires DistinctSymbols(s) && x in s && y in s
    ensures x.c == y.c ==> x == y
  {
    var a :| 0 <= a < |s| && s[a] == x;
    var b :| 0 <= b < |s| && s[b] == y;
  }

  /** With distinct symbols every record occurs at most once. */
  lemma {:induction false} CountAtMostOne(s: seq<FreqEntry>, x: FreqEntry)
    requires DistinctSymbols(s)
    ensures multiset(s)[x] == if x in s then 1 else 0
    decreases |s|
  {
    if s != [] {
      var init := s[..|s| - 1];
      assert s == init + [s[|s| - 1]];
      assert DistinctSymbols(init) by {
        forall i, j | 0 <= i < j < |init| ensures init[i].c != init[j].c {
          assert init[i] == s[i] && init[j] == s[j];
        }
      }
      CountAtMostOne(init, x);
      forall i | 0 <= i < |init| ensures init[i].c != s[|s| - 1].c {
        assert init[i] == s[i];
      }
    }
  }

  /** Reordering records keeps their symbols distinct. */
  lemma DistinctSymbolsPermutation(s: seq<FreqEntry>, t: seq<FreqEntry>)
    requires multiset(s) == multiset(t) && DistinctSymbols(s)
    ensures DistinctSymbols(t)
  {
    forall i, j | 0 <= i < j < |t| ensures t[i].c != t[j].c {
      TwiceCounted(t, i, j);
      CountAtMostOne(s, t[i]);
      assert t[i] in multiset(s) && t[j] in multiset(s);
      SymbolIdentifies(s, t[i], t[j]);
    }
  }

  /** The symbols on the leaves are those of the leaf records. */
  lemma SymbolsOfLeaves(t: Tree, c: byte)
    ensures c in Symbols(t) <==> exists i :: 0 <= i < |Leaves(t)| && Leaves(t)[i].c == c
  {
    if c in Symbols(t) {
      SymbolHasLeaf(t, c);
    } else {
      forall i | 0 <= i < |Leaves(t)| ensures Leaves(t)[i].c != c {
        LeafSymbolIn(t, i);
      }
    }
  }

  /** Every leaf record's symbol is a symbol of the tree. */
  lemma {:induction false} LeafSymbolIn(t: Tree, i: nat)
    requires i < |Leaves(t)|
    ensures Leaves(t)[i].c in Symbols(t)
  {
    match t
    case Node(_, _, l, r) =>
      if !(l.Nil? && r.Nil?) {
        var L, R := Leaves(l), Leaves(r);
        assert Leaves(t) == L + R;
        if i < |L| {
          LeafSymbolIn(l, i);
          assert Leaves(t)[i] == L[i];
        } else {
          LeafSymbolIn(r, i - |L|);
          assert Leaves(t)[i] == R[i - |L|];
        }
      }
  }

  /** Every symbol of the tree sits on some leaf record. */
  lemma {:induction false} SymbolHasLeaf(t: Tree, c: byte)
    requires c in Symbols(t)
    ensures exists i :: 0 <= i < |Leaves(t)| && Leaves(t)[i].c == c
  {
    match t
    case Node(_, _, l, r) =>
      if l.Nil? && r.Nil? {
        assert Leaves(t)[0].c == c;
      } else {
        var L, R := Leaves(l), Leaves(r);
        assert Leaves(t) == L + R;
        if c in Symbols(l) {
          SymbolHasLeaf(l, c);
          var k :| 0 <= k < |L| && L[k].c == c;
          assert Leaves(t)[k] == L[k];
        } else {
          SymbolHasLeaf(r, c);
          var k :| 0 <= k < |R| && R[k].c == c;
          assert Leaves(t)[|L| + k] == R[k];
        }
      }
  }

  /** A tree whose leaf records have distinct symbols has no symbol on two leaves. */
  lemma {:induction false} DistinctFromLeaves(t: Tree)
    requires DistinctSymbols(Leaves(t))
    ensures Distinct(t)
  {
    match t
    case Nil =>
    case Node(_, _, l, r) =>
      if !(l.Nil? && r.Nil?) {
        var L, R := Leaves(l), Leaves(r);
        assert Leaves(t) == L + R;
        assert DistinctSymbols(L) by {
          forall i, j | 0 <= i < j < |L| ensures L[i].c != L[j].c {
            assert L[i] == Leaves(t)[i] && L[j] == Leaves(t)[j];
          }
        }
        assert DistinctSymbols(R) by {
          forall i, j | 0 <= i < j < |R| ensures R[i].c != R[j].c {
            assert R[i] == Leaves(t)[|L| + i] && R[j] == Leaves(t)[|L| + j];
          }
        }
        DistinctFromLeaves(l);
        DistinctFromLeaves(r);
        forall c | c in Symbols(l) ensures c !in Symbols(r) {
          SymbolsOfLeaves(l, c);
          var i :| 0 <= i < |L| && L[i].c == c;
          forall j | 0 <= j < |R| ensures R[j].c != c {
            assert Leaves(t)[i] == L[i] && Leaves(t)[|L| + j] == R[j];
          }
          SymbolsOfLeaves(r, c);
        }
      }
  }

  /**
   * Whatever the iteration order: an empty map gives no tree; otherwise the
   * tree is full, carries exactly one leaf per key with that key's count,
   * and so has no symbol on two leaves.
   */
  lemma MapTreeShape(freqs: map<byte, u32>, order: seq<byte>)
    requires IsIterationOrder(freqs, order)
    ensures BuildTree(MapEntries(freqs, order)).Nil? <==> freqs == map[]
    ensures freqs != map[] ==> Full(BuildTree(MapEntries(freqs, order))) && Distinct(BuildTree(MapEntries(freqs, order)))
    ensures freqs != map[] ==> forall e :: e in Leaves(BuildTree(MapEntries(freqs, order))) <==> e.c in freqs && e.f == freqs[e.c]
  {
    var es := MapEntries(freqs, order);
    MapEntriesOf(freqs, order);
    BuildTreeShape(es);
    if freqs != map[] {
      var c :| c in freqs;
      assert FreqEntry(c, freqs[c]) in es;
      var t := BuildTree(es);
      DistinctSymbolsPermutation(es, Leaves(t));
      DistinctFromLeaves(t);
      forall e ensures e in Leaves(t) <==> e in es {
        assert e in Leaves(t) <==> e in multiset(Leaves(t));
      }
    }
  }

  /**
   * The iteration order changes the shape of the tree but not what it is
   * built from: the same leaves, and the same total count at the root.
   */
  lemma OrderKeepsLeaves(freqs: map<byte, u32>, o1: seq<byte>, o2: seq<byte>)
    requires IsIterationOrder(freqs, o1) && IsIterationOrder(freqs, o2) && freqs != map[]
    ensures multiset(Leaves(BuildTree(MapEntries(freqs, o1)))) == multiset(Leaves(BuildTree(MapEntries(freqs, o2))))
    ensures BuildTree(MapEntries(freqs, o1)).Node? && BuildTree(MapEntries(freqs, o2)).Node?
    ensures BuildTree(MapEntries(freqs, o1)).f == BuildTree(MapEntries(freqs, o2)).f
  {
    var s1, s2 := MapEntries(freqs, o1), MapEntries(freqs, o2);
    MapEntriesOf(freqs, o1);
    MapEntriesOf(freqs, o2);
    forall x ensures multiset(s1)[x] == multiset(s2)[x] {
      CountAtMostOne(s1, x);
      CountAtMostOne(s2, x);
    }
    assert multiset(s1) == multiset(s2);
    MapTreeShape(freqs, o1);
    BuildTreeShape(s1);
    BuildTreeShape(s2);
    FreqSumPermutation(s1, s2);
  }

  // ---------------------------------------------------------------------
  // Unpacking

  /** `unpackFromReader` of the map-based copy, when the `range` in `makeTree` visits the keys in `order`. */
  function UnpackMapAt(data: seq<byte>, pos: nat, order: seq<byte>): Result<seq<byte>, Failure> {
    var fm :- ParseFreqMap(data, pos);
    var tree := BuildTree(MapEntries(fm.0, order));
    if tree.Nil? then Err(EmptyFrequencyTable)
    else
      var trailer :- ReadTrailerAt(data, fm.1);
      DecodeSpec(tree, trailer.0.0, trailer.0.1)
  }

  /** `unpackFromReader`; the order its `range` took is returned as a ghost. */
  method UnpackFromReaderMap(r: ByteReader) returns (res: Result<seq<byte>, Failure>, ghost order: seq<byte>)
    modifies r
    ensures res == UnpackMapAt(r.data, old(r.pos), order)
    ensures ParseFreqMap(r.data, old(r.pos)).Ok? ==> IsIterationOrder(ParseFreqMap(r.data, old(r.pos)).value.0, order)
  {
    order := [];
    var freqs :- GetFreqs(r);
    var tree;
    tree, order := MakeTree(freqs);
    if tree.Nil? {
      res := Err(EmptyFrequencyTable);
      return;
    }
    var trailer :- ReadTrailer(r);
    res := Decode(tree, trailer.0, trailer.1);
  }

  /** `unpackBytes`. */
  method UnpackBytesMap(b: seq<byte>) returns (res: Result<seq<byte>, Failure>, ghost order: seq<byte>)
    ensures res == UnpackMapAt(b, 0, order)
    ensures ParseFreqMap(b, 0).Ok? ==> IsIterationOrder(ParseFreqMap(b, 0).value.0, order)
  {
    var r := new ByteReader(b);
    res, order := UnpackFromReaderMap(r);
  }

  // ---------------------------------------------------------------------
  // Relation to the ordered decoder

  /** The symbols of the records, in file order. */
  function SymbolsOf(es: seq<FreqEntry>): (cs: seq<byte>)
    ensures |cs| == |es| && forall i :: 0 <= i < |es| ==> cs[i] == es[i].c
    decreases |es|
  {
    if es == [] then [] else SymbolsOf(es[..|es| - 1]) + [es[|es| - 1].c]
  }

  /** Updating a key that the order does not visit changes no pushed leaf. */
  lemma {:induction false} MapEntriesUpdate(freqs: map<byte, u32>, order: seq<byte>, c: byte, f: u32)
    requires c !in order
    ensures MapEntries(freqs[c := f], order) == MapEntries(freqs, order)
    decreases |order|
  {
    if order != [] {
      MapEntriesUpdate(freqs, order[..|order| - 1], c, f);
    }
  }

  /**
   * A table without repeated symbols loses nothing in the map, and a `range`
   * that happens to visit the keys in file order pushes the records in file
   * order, as `getFreqsOrdered` does.
   */
  lemma RecordsMapInFileOrder(es: seq<FreqEntry>)
    requires DistinctSymbols(es)
    ensures IsIterationOrder(RecordsMap(es), SymbolsOf(es))
    ensures MapEntries(RecordsMap(es), SymbolsOf(es)) == es
  {
    forall c ensures c in RecordsMap(es) <==> c in SymbolsOf(es) {
      RecordsMapKeys(es, c);
    }
    MapEntriesInFileOrder(es);
  }

  lemma {:induction false} MapEntriesInFileOrder(es: seq<FreqEntry>)
    requires DistinctSymbols(es)
    ensures MapEntries(RecordsMap(es), SymbolsOf(es)) == es
    decreases |es|
  {
    if es != [] {
      var init, e := es[..|es| - 1], es[|es| - 1];
      DistinctSymbolsInit(es);
      MapEntriesInFileOrder(init);
      var m, order := RecordsMap(init), SymbolsOf(init);
      assert RecordsMap(es) == m[e.c := e.f];
      assert SymbolsOf(es) == order + [e.c];
      MapEntriesSnoc(m[e.c := e.f], order, e.c);
      MapEntriesUpdate(m, order, e.c, e.f);
      assert es == init + [e];
    }
  }

  /** Dropping the last record keeps the symbols distinct, and the last symbol is not among the others. */
  lemma DistinctSymbolsInit(es: seq<FreqEntry>)
    requires es != [] && DistinctSymbols(es)
    ensures DistinctSymbols(es[..|es| - 1]) && es[|es| - 1].c !in SymbolsOf(es[..|es| - 1])
  {
    var init := es[..|es| - 1];
    forall i, j | 0 <= i < j < |init| ensures init[i].c != init[j].c {
      assert init[i] == es[i] && init[j] == es[j];
    }
    var order := SymbolsOf(init);
    forall i | 0 <= i < |order| ensures order[i] != es[|es| - 1].c {
      assert init[i] == es[i];
    }
  }

  /** Visiting one more key pushes one more leaf. */
  lemma MapEntriesSnoc(freqs: map<byte, u32>, order: seq<byte>, c: byte)
    requires c in freqs
    ensures MapEntries(freqs, order + [c]) == MapEntries(freqs, order) + [FreqEntry(c, freqs[c])]
  {
    assert (order + [c])[..|order|] == order;
  }

  /**
   * On a table without repeated symbols, the map-based copy with the
   * iteration order that follows the file gives the ordered decoder's result.
   */
  lemma MapMatchesOrdered(data: seq<byte>, pos: nat)
    requires ParseTable(data, pos).Ok? && DistinctSymbols(ParseTable(data, pos).value.0)
    ensures ParseFreqMap(data, pos).Ok?
    ensures IsIterationOrder(ParseFreqMap(data, pos).value.0, SymbolsOf(ParseTable(data, pos).value.0))
    ensures UnpackMapAt(data, pos, SymbolsOf(ParseTable(data, pos).value.0)) == UnpackAt(data, pos)
  {
    var table := ParseTable(data, pos).value;
    var es := table.0;
    RecordsMapInFileOrder(es);
    assert ParseFreqMap(data, pos) == Ok((RecordsMap(es), table.1));
    assert MapEntries(RecordsMap(es), SymbolsOf(es)) == es;
    var tree := BuildTree(es);
    if tree.Nil? {
      assert UnpackMapAt(data, pos, SymbolsOf(es)) == Err(EmptyFrequencyTable);
      assert ReadContainerAt(data, pos) == Err(EmptyFrequencyTable);
    } else {
      match ReadTrailerAt(data, table.1)
      case Err(e) =>
        assert UnpackMapAt(data, pos, SymbolsOf(es)) == Err(e);
        assert ReadContainerAt(data, pos) == Err(e);
      case Ok(tr) =>
        assert UnpackMapAt(data, pos, SymbolsOf(es)) == DecodeSpec(tree, tr.0.0, tr.0.1);
        assert ReadContainerAt(data, pos) == Ok((tree, tr.0.0, tr.0.1));
    }
  }

  /**
   * Whatever order the `range` took, a successful unpack of the map-based copy
   * returns a message whose code under the built tree is exactly the first
   * `packedBits` bits of the payload: with one leaf per key, no symbol has two
   * codes.
   */
  lemma MapUnpackIsEncoding(data: seq<byte>, pos: nat, order: seq<byte>)
    requires ParseFreqMap(data, pos).Ok? && IsIterationOrder(ParseFreqMap(data, pos).value.0, order)
    requires UnpackMapAt(data, pos, order).Ok?
    ensures ReadTrailerAt(data, ParseFreqMap(data, pos).value.1).Ok?
    ensures var tree := BuildTree(MapEntries(ParseFreqMap(data, pos).value.0, order));
            var trailer := ReadTrailerAt(data, ParseFreqMap(data, pos).value.1).value.0;
            var msg := UnpackMapAt(data, pos, order).value;
            && Encode(tree, msg).Some?
            && |Encode(tree, msg).value| == trailer.1
            && Carries(trailer.0, 0, Encode(tree, msg).value)
  {
    var fm := ParseFreqMap(data, pos).value;
    var tree := BuildTree(MapEntries(fm.0, order));
    MapTreeShape(fm.0, order);
    var trailer := ReadTrailerAt(data, fm.1).value.0;
    if !IsLeaf(tree) {
      DecodeYieldsEncoding(tree, trailer.0, trailer.1);
    }
  }

  /**
   * Go randomises map iteration, so the copy's output is not a function of its
   * input: with two symbols of equal count, the two possible orders give the
   * two mirror-image trees, and the one-bit payload 0 decodes to either symbol.
   */
  lemma MapOrderChangesOutput()
    ensures var data := ContainerBytes(0, 0, [FreqEntry(65, 1), FreqEntry(66, 1)], 1, 0, [0]);
            && ParseFreqMap(data, 0).Ok?
            && IsIterationOrder(ParseFreqMap(data, 0).value.0, [65, 66])
            && IsIterationOrder(ParseFreqMap(data, 0).value.0, [66, 65])
            && UnpackMapAt(data, 0, [65, 66]) == Ok([65])
            && UnpackMapAt(data, 0, [66, 65]) == Ok([66])
  {
    var a, b := FreqEntry(65, 1), FreqEntry(66, 1);
    var m: map<byte, u32> := map[65 := 1, 66 := 1];
    var data := ContainerBytes(0, 0, [a, b], 1, 0, [0]);
    ExampleContainer();
    MapEntriesSnoc(m, [], 65);
    MapEntriesSnoc(m, [65], 66);
    MapEntriesSnoc(m, [], 66);
    MapEntriesSnoc(m, [66], 65);
    UnpackTwoLeaves(data, m, a, b);
    UnpackTwoLeaves(data, m, b, a);
    TwoKeyOrders(m, 65, 66);
  }

  /** A map with exactly two keys may be visited in either order. */
  lemma TwoKeyOrders(m: map<byte, u32>, x: byte, y: byte)
    requires x != y && x in m && y in m && forall c :: c in m ==> c == x || c == y
    ensures IsIterationOrder(m, [x, y]) && IsIterationOrder(m, [y, x])
  {
    assert forall c :: c in [x, y] <==> c == x || c == y;
    assert forall c :: c in [y, x] <==> c == x || c == y;
  }

  /** A container whose map holds two equal counts, read with a given order. */
  lemma UnpackTwoLeaves(data: seq<byte>, m: map<byte, u32>, a: FreqEntry, b: FreqEntry)
    requires ParseFreqMap(data, 0) == Ok((m, 28)) && ReadTrailerAt(data, 28) == Ok((([0], 1), 41))
    requires MapEntries(m, [] + [a.c] + [b.c]) == [] + [a] + [b] && a.f == b.f
    ensures UnpackMapAt(data, 0, [a.c, b.c]) == Ok([a.c])
  {
    assert [] + [a.c] + [b.c] == [a.c, b.c];
    assert [] + [a] + [b] == [a, b];
    TwoLeafTree(a, b);
  }

  /** The two-record container of the example, read up to the payload. */
  lemma ExampleContainer()
    ensures var data := ContainerBytes(0, 0, [FreqEntry(65, 1), FreqEntry(66, 1)], 1, 0, [0]);
            && ParseFreqMap(data, 0) == Ok((map[65 := 1, 66 := 1], 28))
            && ReadTrailerAt(data, 28) == Ok((([0], 1), 41))
  {
    var a, b := FreqEntry(65, 1), FreqEntry(66, 1);
    var es := [a, b];
    var table := TableBytes(0, 0, es);
    var data := ContainerBytes(0, 0, es, 1, 0, [0]);
    ParseTableRoundTrip(0, 0, es, TrailerBytes(1, 0, [0]));
    TrailerOf(table, 1, 0, [0], []);
    assert data + [] == data;
    assert RecordsMap(es) == RecordsMap([a])[66 := 1] by {
      assert es[..1] == [a];
    }
    assert RecordsMap([a]) == map[][65 := 1] by {
      assert [a][..0] == [];
    }
  }

  /** Two records of equal count: the first becomes the left leaf, and a 0 bit selects it. */
  lemma TwoLeafTree(a: FreqEntry, b: FreqEntry)
    requires a.f == b.f
    ensures BuildTree([a, b]) == Join(Leaf(a), Leaf(b))
    ensures DecodeSpec(BuildTree([a, b]), [0], 1) == Ok([a.c])
  {
    TwoLeafHeap(a, b);
    TwoLeafCombine(Leaf(a), Leaf(b));
    LeftLeafDecode(Leaf(a), Leaf(b));
  }

  lemma TwoLeafHeap(a: FreqEntry, b: FreqEntry)
    requires a.f == b.f
    ensures PushLeaves([], [a, b]) == [Leaf(a), Leaf(b)]
  {
    var la, lb := Leaf(a), Leaf(b);
    assert HeapPush([], la) == [la] by {
      assert [] + [la] == [la];
    }
    assert HeapPush([la], lb) == [la, lb];
    assert PushLeaves([la], [b]) == [la, lb] by {
      assert [b][1..] == [];
    }
    assert [a, b][1..] == [b];
  }

  lemma TwoLeafCombine(la: NodeRef, lb: NodeRef)
    ensures Combine([la, lb]) == Join(la, lb)
  {
    var j := Join(la, lb);
    PopPair(la, lb);
    PopSingle(lb);
    PushEmpty(j);
    PopSingle(j);
    assert Combine([la, lb]) == Combine(HeapPush([], j));
  }

  lemma PopPair(x: NodeRef, y: NodeRef)
    ensures HeapPop([x, y]) == (Some(x), [y])
  {
    assert [x, y][..1] == [x];
    assert [x][0 := y] == [y];
  }

  lemma PopSingle(x: NodeRef)
    ensures HeapPop([x]) == (Some(x), [])
  {
    assert [x][..0] == [];
  }

  lemma PushEmpty(x: NodeRef)
    ensures HeapPush([], x) == [x]
  {
    assert [] + [x] == [x];
  }

  lemma LeftLeafDecode(la: NodeRef, lb: NodeRef)
    requires IsLeaf(la)
    ensures DecodeSpec(Join(la, lb), [0], 1) == Ok([la.c])
  {
    var j := Join(la, lb);
    assert ByteBit(0, 0) == false;
    assert ReadBitAt([0], 1, 0) == (Bit(false), 1);
    assert WalkSymbol(j, [0], 1, 0) == Reached(la.c, 1);
    assert DecodeFrom(j, [0], 1, 1, [la.c]) == Ok([la.c]);
    assert [] + [la.c] == [la.c];
  }
}
